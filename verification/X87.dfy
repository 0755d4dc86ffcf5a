/** The x87 register stack and the code the LIR assembler emits for it.

Register-form instructions are the two bytes the assembler emits; their effect is looked up
by opcode as in the instruction pages of the Intel SDM Volume 2. A stack fault, or a
violated calling convention of the FPU stack, is `None`.
*/
module X87 {
  import opened Stacks
  import opened Options
  import opened Lir

  /** `st` holds ST(0) last. */
  datatype Machine = Machine(st: seq<Value>, out: seq<Event>)

  datatype Instr =
    | Farith(b1: int, b2: int, i: int)         // opcode bytes b1 and b2 + i, with 0 <= i < 8
    | Fop(b1: int, b2: int)                    // two fixed opcode bytes
    | Fucom(kind: CmpKind, b1: int, b2: int, i: int)  // fucomi[p] and the code reading its flags
    | FarithMem(op: ArithOp, src: Opr)         // ST(0) := ST(0) op memory
    | FldMem(src: Opr)
    | FldConst(v: Value)                       // load of one of the strictfp bias constants
    | FildMem(addr: int)
    | FstMem(addr: int, pop: bool)
    | FistMem(addr: int)
    | Fpop                                     // ffree ST(0); fincstp
    | Fpu2Long                                 // runtime stub, consumes ST(0)
    | Fn(fn: Intrinsic, size: nat)             // sin, cos, tan, exp with runtime fallback
    | FnPow(size: nat)
    | Ret(fpuResult: bool)
    | CallJava(id: int, fpuResult: bool)
    | Cpu(work: Op)

  function St(m: Machine, i: int): Value
    requires 0 <= i < |m.st|
  {
    Slot(m.st, i)
  }

  function SetSt(m: Machine, i: int, v: Value): (r: Machine)
    requires 0 <= i < |m.st|
    ensures |r.st| == |m.st| && r.out == m.out
    ensures forall j :: 0 <= j < |m.st| ==> r.st[j] == if j == |m.st| - 1 - i then v else m.st[j]
  {
    m.(st := m.st[|m.st| - 1 - i := v])
  }

  function Drop(m: Machine): Machine
    requires |m.st| > 0
  {
    m.(st := Pop(m.st))
  }

  function Push(m: Machine, v: Value): Option<Machine> {
    if |m.st| < NOF_FPU_REGS then Some(m.(st := m.st + [v])) else None
  }

  // ----- opcode tables -----

  /** Result of the register-form arithmetic opcodes D8, DC and DE. In all three the second
      byte alone selects the value: E0+i is ST(0) - ST(i) (FSUB under D8, FSUBR and
      FSUBRP under DC and DE), E8+i is ST(i) - ST(0), F0+i is ST(0) / ST(i) and F8+i is
      ST(i) / ST(0). */
  function ArithOpcode(b2: int, top: Value, other: Value): Option<Value> {
    if b2 == 0xC0 then Some(Plus(top, other))
    else if b2 == 0xC8 then Some(Times(top, other))
    else if b2 == 0xE0 then Some(Difference(top, other))
    else if b2 == 0xE8 then Some(Difference(other, top))
    else if b2 == 0xF0 then Some(Quotient(top, other))
    else if b2 == 0xF8 then Some(Quotient(other, top))
    else None
  }

  /** D8 writes ST(0), DC writes ST(i), DE writes ST(i) and pops. */
  function ExecArith(b1: int, b2: int, i: int, m: Machine): Option<Machine>
    requires 0 <= i < |m.st|
  {
    match ArithOpcode(b2, St(m, 0), St(m, i))
    case None => None
    case Some(v) =>
      if b1 == 0xD8 then Some(SetSt(m, 0, v))
      else if b1 == 0xDC then Some(SetSt(m, i, v))
      else if b1 == 0xDE then Some(Drop(SetSt(m, i, v)))
      else None
  }

  /** Register-form instructions: D9 C0+i is fld ST(i), D9 C8+i is fxch. */
  function ExecFarith(b1: int, b2: int, i: int, m: Machine): Option<Machine> {
    if !(0 <= i < |m.st|) then None
    else if b1 == 0xD9 then
      if b2 == 0xC0 then Push(m, St(m, i))
      else if b2 == 0xC8 then Some(m.(st := SwapTop(m.st, i)))
      else None
    else ExecArith(b1, b2, i, m)
  }

  /** Fixed forms: fldlg2, fldln2, fldz, fchs, fabs, fsqrt, fyl2x, fprem. */
  function ExecFop(b1: int, b2: int, m: Machine): Option<Machine> {
    if b1 != 0xD9 then None
    else if b2 == 0xEC then Push(m, Lg2)
    else if b2 == 0xED then Push(m, Ln2)
    else if b2 == 0xEE then Push(m, Zero)
    else if |m.st| == 0 then None
    else if b2 == 0xE0 then Some(SetSt(m, 0, Negated(St(m, 0))))
    else if b2 == 0xE1 then Some(SetSt(m, 0, AbsOf(St(m, 0))))
    else if b2 == 0xFA then Some(SetSt(m, 0, SqrtOf(St(m, 0))))
    else if |m.st| < 2 then None
    else if b2 == 0xF1 then Some(Drop(SetSt(m, 1, Yl2x(St(m, 1), St(m, 0)))))
    else if b2 == 0xF8 then Some(SetSt(m, 0, Remainder(St(m, 0), St(m, 1))))
    else None
  }

  function Emits(m: Machine, e: Event): Machine {
    m.(out := m.out + [e])
  }

  /** fucomi is DB E8+i, fucomip is DF E8+i. */
  function ExecCompare(kind: CmpKind, b1: int, b2: int, i: int, m: Machine): Option<Machine> {
    if !(0 <= i < |m.st|) || b2 != 0xE8 then None
    else
      var m' := Emits(m, Compared(kind, St(m, 0), St(m, i)));
      if b1 == 0xDB then Some(m') else if b1 == 0xDF then Some(Drop(m')) else None
  }

  function Exec1(i: Instr, m: Machine): Option<Machine> {
    match i
    case Farith(b1, b2, i) => ExecFarith(b1, b2, i, m)
    case Fop(b1, b2) => ExecFop(b1, b2, m)
    case Fucom(kind, b1, b2, i) => ExecCompare(kind, b1, b2, i, m)
    case FarithMem(op, src) =>
      if |m.st| == 0 || !IsExternal(src) then None
      else Some(SetSt(m, 0, ArithValue(op, St(m, 0), Content(src, m.out))))
    case FldMem(src) => if IsExternal(src) then Push(m, Content(src, m.out)) else None
    case FldConst(v) => Push(m, v)
    case FildMem(addr) => Push(m, FromInt(addr, m.out))
    case FstMem(addr, pop) =>
      if |m.st| == 0 then None
      else
        var m' := Emits(m, Stored(addr, St(m, 0)));
        Some(if pop then Drop(m') else m')
    case FistMem(addr) => if |m.st| == 0 then None else Some(Emits(m, StoredInt(addr, St(m, 0))))
    case Fpop => if |m.st| == 0 then None else Some(Drop(m))
    case Fpu2Long =>
      if |m.st| == 0 then None else Some(Drop(Emits(m, ConvertedToLong(St(m, 0)))))
    case Fn(fn, size) =>
      // two further slots are used while computing, and the fallback to the runtime saves and
      // reloads `size` registers, so another number would destroy values
      if 1 <= |m.st| == size <= 6 then Some(SetSt(m, 0, Applied(fn, St(m, 0)))) else None
    case FnPow(size) =>
      if 2 <= |m.st| == size <= 6 then Some(Drop(SetSt(m, 1, Power(St(m, 0), St(m, 1))))) else None
    case Ret(fpuResult) =>
      if fpuResult then
        if |m.st| == 1 then Some(Emits(m, Returned(Some(St(m, 0))))) else None
      else if m.st == [] then Some(Emits(m, Returned(None))) else None
    case CallJava(id, fpuResult) =>
      if m.st != [] then None
      else
        var m' := Emits(m, Call(id));
        if fpuResult then Push(m', CallResult(id, m'.out)) else Some(m')
    case Cpu(op) => Some(Emits(m, CpuWork(op)))
  }

  function Exec(code: seq<Instr>, m: Machine): Option<Machine> {
    if code == [] then Some(m)
    else match Exec1(code[0], m)
      case None => None
      case Some(m') => Exec(code[1..], m')
  }

  // ----- the LIR assembler -----

  /** Register-form emitter: offsets outside the stack are refused. */
  function EmitFarith(b1: int, b2: int, i: int): Option<seq<Instr>> {
    if 0 <= i < 8 then Some([Farith(b1, b2, i)]) else None
  }

  /** Selects among the six forms of each arithmetic instruction. `None` is a failed
      assertion. */
  function EmitArithFpu(op: ArithOp, left: int, right: int, dest: int, pop: bool): Option<seq<Instr>> {
    if !pop && !(left == dest || right == dest) then None
    else if pop && !(left - 1 == dest || right - 1 == dest) then None
    else if !(left == 0 || right == 0) then None
    else
      var leftIsTos := left == 0;
      var destIsTos := dest == 0;
      var nonTos := if leftIsTos then right else left;
      match op
      case Add =>
        if pop then EmitFarith(0xDE, 0xC0, nonTos)             // faddp
        else if destIsTos then EmitFarith(0xD8, 0xC0, nonTos)  // fadd
        else EmitFarith(0xDC, 0xC0, nonTos)                    // fadda
      case Sub =>
        if leftIsTos then
          if pop then EmitFarith(0xDE, 0xE0, nonTos)             // fsubrp
          else if destIsTos then EmitFarith(0xD8, 0xE0, nonTos)  // fsub
          else EmitFarith(0xDC, 0xE0, nonTos)                    // fsubra
        else
          if pop then EmitFarith(0xDE, 0xE8, nonTos)             // fsubp
          else if destIsTos then EmitFarith(0xD8, 0xE8, nonTos)  // fsubr
          else EmitFarith(0xDC, 0xE8, nonTos)                    // fsuba
      case Mul =>
        if pop then EmitFarith(0xDE, 0xC8, nonTos)             // fmulp
        else if destIsTos then EmitFarith(0xD8, 0xC8, nonTos)  // fmul
        else EmitFarith(0xDC, 0xC8, nonTos)                    // fmula
      case Div =>
        if leftIsTos then
          if pop then EmitFarith(0xDE, 0xF0, nonTos)             // fdivrp
          else if destIsTos then EmitFarith(0xD8, 0xF0, nonTos)  // fdiv
          else EmitFarith(0xDC, 0xF0, nonTos)                    // fdivra
        else
          if pop then EmitFarith(0xDE, 0xF8, nonTos)             // fdivp
          else if destIsTos then EmitFarith(0xD8, 0xF8, nonTos)  // fdivr
          else EmitFarith(0xDC, 0xF8, nonTos)                    // fdiva
  }

  function Then(a: Option<seq<Instr>>, b: Option<seq<Instr>>): Option<seq<Instr>> {
    if a.None? || b.None? then None else Some(a.value + b.value)
  }

  function EmitScale(bias: Value, index: int): Option<seq<Instr>> {
    Then(Some([FldConst(bias)]), EmitFarith(0xDE, 0xC8, index + 1))  // fld_x; fmulp
  }

  function EmitArithCore(op: ArithOp, left: int, right: Opr, dest: int, pop: bool): Option<seq<Instr>> {
    if right.Offset? then EmitArithFpu(op, left, right.k, dest, pop)
    else if left == 0 && dest == 0 && right.Mem? then Some([FarithMem(op, right)])
    else None
  }

  function EmitArith(op: ArithOp, strictness: Strictness, left: Opr, right: Opr, dest: Opr, pop: bool)
    : Option<seq<Instr>>
  {
    if !left.Offset? || !dest.Offset? then None
    else
      var core := EmitArithCore(op, left.k, right, dest.k, pop);
      if strictness == StrictDouble
      then Then(EmitScale(Bias1, left.k), Then(core, EmitScale(Bias2, dest.k)))
      else core
  }

  predicate Top(o: Opr) { o == Offset(0) }

  function Emit1(code: Code1, arg: Opr, res: Opr, pop: bool): Option<seq<Instr>> {
    match code
    case Return => if arg.Offset? then if Top(arg) then Some([Ret(true)]) else None else Some([Ret(false)])
    case Move =>
      if arg.Offset? then
        if res.Xmm? then if Top(arg) then Some([FstMem(res.addr, true)]) else None
        else if res.Offset? then if arg == res then Some([]) else None
        else if res.Mem? && Top(arg) then Some([FstMem(res.addr, pop)])
        else None
      else if Top(res) then Some(if arg.ZeroConst? then [Fop(0xD9, 0xEE)] else [FldMem(arg)])
      else None
    case Neg => if Top(arg) && Top(res) then Some([Fop(0xD9, 0xE0)]) else None
    case ConvertFloat => if arg.Offset? && arg == res then Some([]) else None
    case ConvertFromInt => if arg.Mem? && Top(res) then Some([FildMem(arg.addr)]) else None
    case ConvertToInt => if Top(arg) && res.Mem? then Some([FistMem(res.addr)]) else None
    case ConvertToLong => if Top(arg) then Some([Fpu2Long]) else None
    case RoundFp => if Top(arg) && res.Mem? then Some([FstMem(res.addr, pop)]) else None
    case CpuOnly1 => None
  }

  function Emit2(code: Code2, left: Opr, right: Opr, res: Opr, pop: bool, stackSize: nat): Option<seq<Instr>> {
    match code
    case Compare(kind) =>
      if Top(left) && right.Offset? && 0 <= right.k < 8
      then Some([Fucom(kind, if pop then 0xDF else 0xDB, 0xE8, right.k)]) else None
    case Arith(op, strictness) => EmitArith(op, strictness, left, right, res, pop)
    case Rem =>
      if Top(left) && Top(res) && right == Offset(1)
      then Some([Fop(0xD9, 0xF8), Farith(0xD9, 0xC8, 1), Fpop])  // fprem; fxch; fpop
      else None
    case Abs => if Top(left) && Top(res) then Some([Fop(0xD9, 0xE1)]) else None
    case Sqrt => if Top(left) && Top(res) then Some([Fop(0xD9, 0xFA)]) else None
    case Log =>
      if Top(left) && Top(res)
      then Some([Fop(0xD9, 0xED), Farith(0xD9, 0xC8, 1), Fop(0xD9, 0xF1)]) else None
    case Log10 =>
      if Top(left) && Top(res)
      then Some([Fop(0xD9, 0xEC), Farith(0xD9, 0xC8, 1), Fop(0xD9, 0xF1)]) else None
    case Intrinsic(fn) => if Top(left) && Top(res) && stackSize <= 6 then Some([Fn(fn, stackSize)]) else None
    case Pow => if Top(left) && Top(res) then Some([FnPow(stackSize)]) else None
    case CpuOnly2 => None
  }

  function EmitOp(op: Op): Option<seq<Instr>> {
    if Neutral(op) then Some(if op.OpBranch? then [] else [Cpu(op)])
    else match op
      case Op1(code, arg, res, pop) => Emit1(code, arg, res, pop)
      case Op2(code, left, right, res, _, _, pop, size) => Emit2(code, left, right, res, pop, size)
      case OpCall(id, res) => if res.Offset? then if Top(res) then Some([CallJava(id, true)]) else None
                              else Some([CallJava(id, false)])
      case Fxch(k) => EmitFarith(0xD9, 0xC8, k)
      case Fld(k) => EmitFarith(0xD9, 0xC0, k)
      case FpopRaw => Some([Fpop])
      case _ => None
  }

  /** Assembles one operation and executes the result. */
  function RunOp(op: Op, m: Machine): Option<Machine> {
    match EmitOp(op)
    case None => None
    case Some(code) => Exec(code, m)
  }

  /** Assembles and executes a list of operations in order. */
  function RunOps(ops: seq<Op>, m: Machine): Option<Machine> {
    if ops == [] then Some(m)
    else match RunOps(ops[..|ops| - 1], m)
      case None => None
      case Some(m') => RunOp(ops[|ops| - 1], m')
  }

  /** Executes a list up to the given exit. */
  function RunTo(ops: seq<Op>, x: Exit, m: Machine): Option<Machine> {
    match Executed(ops, x)
    case None => None
    case Some(i) => RunOps(ops[..i], m)
  }

  lemma RunAppend(ops: seq<Op>, op: Op, m: Machine)
    ensures RunOps(ops + [op], m) == match RunOps(ops, m) case None => None case Some(m') => RunOp(op, m')
  {
    assert (ops + [op])[..|ops|] == ops;
  }

  lemma {:induction false} RunConcat(a: seq<Op>, b: seq<Op>, m: Machine)
    ensures RunOps(a + b, m) == match RunOps(a, m) case None => None case Some(m') => RunOps(b, m')
  {
    if b == [] {
      assert a + b == a;
    } else {
      var c, last := b[..|b| - 1], b[|b| - 1];
      assert a + b == (a + c) + [last] && b == c + [last];
      RunConcat(a, c, m);
      RunAppend(a + c, last, m);
    }
  }

  lemma ExecSingle(i: Instr, m: Machine)
    ensures Exec([i], m) == Exec1(i, m)
  {
    assert [i][1..] == [];
  }

  lemma ExecTwo(a: Instr, b: Instr, m: Machine, m1: Machine, m2: Machine)
    requires Exec1(a, m) == Some(m1) && Exec([b], m1) == Some(m2)
    ensures Exec([a] + [b], m) == Some(m2)
  {
    ExecConcat([a], [b], m);
    ExecSingle(a, m);
  }

  lemma ExecThree(a: Instr, b: Instr, c: Instr, m: Machine, m1: Machine, m2: Machine, m3: Machine)
    requires Exec1(a, m) == Some(m1) && Exec1(b, m1) == Some(m2) && Exec1(c, m2) == Some(m3)
    ensures Exec([a, b, c], m) == Some(m3)
  {
    assert [a, b, c][1..] == [b, c] && [b, c][1..] == [c];
    ExecSingle(c, m2);
  }

  lemma {:induction false} ExecConcat(a: seq<Instr>, b: seq<Instr>, m: Machine)
    ensures Exec(a + b, m) == match Exec(a, m) case None => None case Some(m') => Exec(b, m')
  {
    if a == [] {
      assert a + b == b;
    } else {
      assert (a + b)[1..] == a[1..] + b;
      match Exec1(a[0], m)
      case None =>
      case Some(m') => ExecConcat(a[1..], b, m');
    }
  }

  // ----- the inserted operations -----

  lemma RunFxch(k: int, m: Machine)
    requires 0 <= k < |m.st| <= NOF_FPU_REGS
    ensures RunOp(Fxch(k), m) == Some(m.(st := SwapTop(m.st, k)))
  {
    ExecSingle(Farith(0xD9, 0xC8, k), m);
  }

  lemma RunFld(k: int, m: Machine)
    requires 0 <= k < |m.st| < NOF_FPU_REGS
    ensures RunOp(Fld(k), m) == Some(m.(st := m.st + [St(m, k)]))
  {
    ExecSingle(Farith(0xD9, 0xC0, k), m);
  }

  lemma RunFpop(m: Machine)
    requires |m.st| > 0
    ensures RunOp(FpopRaw, m) == Some(Drop(m))
  {
    ExecSingle(Fpop, m);
  }

  // ----- the rewritten operations -----

  lemma RunStore(op: Op, m: Machine)
    requires op.Op1? && op.arg == Offset(0) && |m.st| > 0
    requires (op.code1.Move? && IsStorage(op.res)) || (op.code1.RoundFp? && op.res.Mem?)
    ensures RunOp(op, m) == Some(
              var m' := Emits(m, Stored(op.res.addr, St(m, 0)));
              if op.pop || op.res.Xmm? then Drop(m') else m')
  {
    ExecSingle(FstMem(op.res.addr, op.pop || op.res.Xmm?), m);
  }

  lemma RunToInt(op: Op, m: Machine)
    requires op.Op1? && op.code1.ConvertToInt? && op.arg == Offset(0) && op.res.Mem? && |m.st| > 0
    ensures RunOp(op, m) == Some(Emits(m, StoredInt(op.res.addr, St(m, 0))))
  {
    ExecSingle(FistMem(op.res.addr), m);
  }

  lemma RunToLong(op: Op, m: Machine)
    requires op.Op1? && op.code1.ConvertToLong? && op.arg == Offset(0) && |m.st| > 0
    ensures RunOp(op, m) == Some(Drop(Emits(m, ConvertedToLong(St(m, 0)))))
  {
    ExecSingle(Fpu2Long, m);
  }

  lemma RunLoad(op: Op, m: Machine)
    requires op.Op1? && op.code1.Move? && IsExternal(op.arg) && op.res == Offset(0) && |m.st| < NOF_FPU_REGS
    ensures RunOp(op, m) == Some(m.(st := m.st + [Content(op.arg, m.out)]))
  {
    ExecSingle(if op.arg.ZeroConst? then Fop(0xD9, 0xEE) else FldMem(op.arg), m);
  }

  lemma RunFromInt(op: Op, m: Machine)
    requires op.Op1? && op.code1.ConvertFromInt? && op.arg.Mem? && op.res == Offset(0) && |m.st| < NOF_FPU_REGS
    ensures RunOp(op, m) == Some(m.(st := m.st + [FromInt(op.arg.addr, m.out)]))
  {
    ExecSingle(FildMem(op.arg.addr), m);
  }

  lemma RunNeg(op: Op, m: Machine)
    requires op.Op1? && op.code1.Neg? && op.arg == op.res == Offset(0) && |m.st| > 0
    ensures RunOp(op, m) == Some(SetSt(m, 0, Negated(St(m, 0))))
  {
    ExecSingle(Fop(0xD9, 0xE0), m);
  }

  lemma RunRet(op: Op, m: Machine)
    requires op.Op1? && op.code1.Return? && (op.arg.Offset? ==> op.arg == Offset(0))
    requires |m.st| == if op.arg.Offset? then 1 else 0
    ensures RunOp(op, m) == Some(Emits(m, Returned(if op.arg.Offset? then Some(m.st[0]) else None)))
  {
    ExecSingle(Ret(op.arg.Offset?), m);
  }

  lemma RunCall(op: Op, m: Machine)
    requires op.OpCall? && !op.res.Fpu? && (op.res.Offset? ==> op.res == Offset(0)) && m.st == []
    ensures RunOp(op, m) == Some(
              var m' := Emits(m, Call(op.id));
              if op.res.Offset? then m'.(st := [CallResult(op.id, m'.out)]) else m')
  {
    ExecSingle(CallJava(op.id, op.res.Offset?), m);
    assert forall v: Value :: [] + [v] == [v];
  }

  lemma RunCompare(op: Op, m: Machine)
    requires op.Op2? && op.code2.Compare? && op.left == Offset(0) && op.right.Offset?
    requires 0 <= op.right.k < |m.st| <= NOF_FPU_REGS
    ensures RunOp(op, m) == Some(
              var m' := Emits(m, Compared(op.code2.kind, St(m, 0), St(m, op.right.k)));
              if op.pop then Drop(m') else m')
  {
    ExecSingle(Fucom(op.code2.kind, if op.pop then 0xDF else 0xDB, 0xE8, op.right.k), m);
  }

  lemma RunRem(op: Op, m: Machine)
    requires op.Op2? && op.code2.Rem? && op.left == op.res == Offset(0) && op.right == Offset(1)
    requires 2 <= |m.st|
    ensures RunOp(op, m) == Some(Drop(SetSt(m, 1, Remainder(St(m, 0), St(m, 1)))))
  {
    var m1 := SetSt(m, 0, Remainder(St(m, 0), St(m, 1)));
    var m2 := m1.(st := SwapTop(m1.st, 1));
    ExecThree(Fop(0xD9, 0xF8), Farith(0xD9, 0xC8, 1), Fpop, m, m1, m2, Drop(m2));
    assert Drop(m2).st == Drop(SetSt(m, 1, Remainder(St(m, 0), St(m, 1)))).st;
  }

  /** The result term of the operations that replace ST(0). */
  function UnaryValue(code: Code2, v: Value): Value
    requires code.Abs? || code.Sqrt? || code.Log? || code.Log10? || code.Intrinsic?
  {
    match code
    case Abs => AbsOf(v)
    case Sqrt => SqrtOf(v)
    case Log => Yl2x(Ln2, v)
    case Log10 => Yl2x(Lg2, v)
    case Intrinsic(fn) => Applied(fn, v)
  }

  /** Slots the operation needs free beyond those in use. */
  function Scratch(code: Code2): nat {
    if code.Log? || code.Log10? then 1 else if code.Intrinsic? || code.Pow? then 2 else 0
  }

  /** The recorded stack size must be the true one where it is used. */
  lemma RunUnary(op: Op, m: Machine)
    requires op.Op2? && op.left == op.res == Offset(0)
    requires op.code2.Abs? || op.code2.Sqrt? || op.code2.Log? || op.code2.Log10? || op.code2.Intrinsic?
    requires 1 <= |m.st| <= NOF_FPU_REGS - Scratch(op.code2)
    requires op.code2.Intrinsic? ==> op.stackSize == |m.st|
    ensures RunOp(op, m) == Some(SetSt(m, 0, UnaryValue(op.code2, St(m, 0))))
  {
    match op.code2
    case Abs => ExecSingle(Fop(0xD9, 0xE1), m);
    case Sqrt => ExecSingle(Fop(0xD9, 0xFA), m);
    case Log => RunFyl2x(0xED, Ln2, m);
    case Log10 => RunFyl2x(0xEC, Lg2, m);
    case Intrinsic(fn) => ExecSingle(Fn(fn, op.stackSize), m);
  }

  function Pushed(m: Machine, c: Value): (r: Machine)
    ensures |r.st| == |m.st| + 1 && r.out == m.out && St(r, 0) == c
    ensures forall i :: 0 <= i < |m.st| ==> St(r, i + 1) == St(m, i)
  {
    m.(st := m.st + [c])
  }

  /** A constant pushed, exchanged with the value below it, and consumed again. */
  lemma PushedSwapped(m: Machine, c: Value, v: Value)
    requires |m.st| > 0
    ensures var m2 := Machine(SwapTop(Pushed(m, c).st, 1), m.out);
            St(m2, 0) == St(m, 0) && St(m2, 1) == c && Drop(SetSt(m2, 1, v)) == SetSt(m, 0, v)
  {
    var m2 := Machine(SwapTop(Pushed(m, c).st, 1), m.out);
    assert Drop(SetSt(m2, 1, v)).st == SetSt(m, 0, v).st;
  }

  lemma FldConstant(b2: int, c: Value, m: Machine)
    requires (b2 == 0xED && c == Ln2) || (b2 == 0xEC && c == Lg2)
    requires 1 <= |m.st| < NOF_FPU_REGS
    ensures Exec1(Fop(0xD9, b2), m) == Some(Pushed(m, c))
    ensures Exec1(Farith(0xD9, 0xC8, 1), Pushed(m, c)) == Some(Machine(SwapTop(Pushed(m, c).st, 1), m.out))
  {
  }

  lemma Fyl2x(m: Machine)
    requires 2 <= |m.st|
    ensures Exec1(Fop(0xD9, 0xF1), m) == Some(Drop(SetSt(m, 1, Yl2x(St(m, 1), St(m, 0)))))
  {
  }

  /** fld constant; fxch; fyl2x replaces ST(0) by constant * log2(ST(0)), using one more slot
      on the way. */
  lemma RunFyl2x(b2: int, c: Value, m: Machine)
    requires (b2 == 0xED && c == Ln2) || (b2 == 0xEC && c == Lg2)
    requires 1 <= |m.st| < NOF_FPU_REGS
    ensures Exec([Fop(0xD9, b2), Farith(0xD9, 0xC8, 1), Fop(0xD9, 0xF1)], m)
         == Some(SetSt(m, 0, Yl2x(c, St(m, 0))))
  {
    hide Exec, Exec1, SetSt, Drop, SwapTop, Pushed;
    var m2 := Machine(SwapTop(Pushed(m, c).st, 1), m.out);
    var m3 := SetSt(m, 0, Yl2x(c, St(m, 0)));
    PushedSwapped(m, c, Yl2x(c, St(m, 0)));
    FldConstant(b2, c, m);
    Fyl2x(m2);
    ExecThree(Fop(0xD9, b2), Farith(0xD9, 0xC8, 1), Fop(0xD9, 0xF1), m, Pushed(m, c), m2, m3);
  }

  lemma RunPow(op: Op, m: Machine)
    requires op.Op2? && op.code2.Pow? && op.left == op.res == Offset(0)
    requires 2 <= |m.st| == op.stackSize <= 6
    ensures RunOp(op, m) == Some(Drop(SetSt(m, 1, Power(St(m, 0), St(m, 1)))))
  {
    ExecSingle(FnPow(op.stackSize), m);
  }

  // ----- arithmetic -----

  lemma RunFarith(b1: int, b2: int, i: int, m: Machine, v: Value)
    requires b1 == 0xD8 || b1 == 0xDC || b1 == 0xDE
    requires 0 <= i < |m.st| <= NOF_FPU_REGS
    requires ArithOpcode(b2, St(m, 0), St(m, i)) == Some(v)
    ensures EmitFarith(b1, b2, i).Some?
    ensures Exec(EmitFarith(b1, b2, i).value, m)
         == Some(if b1 == 0xD8 then SetSt(m, 0, v) else if b1 == 0xDC then SetSt(m, i, v) else Drop(SetSt(m, i, v)))
  {
    ExecSingle(Farith(b1, b2, i), m);
  }

  /** Writes `v` to the destination, which is counted after the pop if there is one. */
  function ArithEffect(m: Machine, dest: int, pop: bool, v: Value): Machine
    requires 0 <= dest < |m.st| - if pop then 1 else 0
  {
    if pop then Drop(SetSt(m, dest + 1, v)) else SetSt(m, dest, v)
  }

  /** Second opcode byte for `op` with the left operand on top, or the right one. */
  function ArithByte(op: ArithOp, leftIsTos: bool): int {
    match op
    case Add => 0xC0
    case Sub => if leftIsTos then 0xE0 else 0xE8
    case Mul => 0xC8
    case Div => if leftIsTos then 0xF0 else 0xF8
  }

  lemma ArithByteValue(op: ArithOp, leftIsTos: bool, l: Value, r: Value)
    ensures ArithOpcode(ArithByte(op, leftIsTos), if leftIsTos then l else r, if leftIsTos then r else l)
         == Some(ArithValue(op, l, r))
  {
    Commute(l, r);
  }

  lemma Selected(op: ArithOp, left: int, right: int, dest: int, pop: bool)
    requires left == 0 || right == 0
    requires if pop then left - 1 == dest || right - 1 == dest else left == dest || right == dest
    ensures EmitArithFpu(op, left, right, dest, pop)
         == EmitFarith(if pop then 0xDE else if dest == 0 then 0xD8 else 0xDC, ArithByte(op, left == 0),
                       if left == 0 then right else left)
  {
    hide EmitFarith;
  }

  /** Whenever the assertions on its indices hold, the selected instruction computes
      left op right into the destination, counted after the pop if there is one. */
  lemma ArithSelection(op: ArithOp, left: int, right: int, dest: int, pop: bool, m: Machine)
    requires 0 <= left < |m.st| && 0 <= right < |m.st| && |m.st| <= NOF_FPU_REGS
    requires left == 0 || right == 0
    requires 0 <= dest
    requires !pop ==> left == dest || right == dest
    requires pop ==> left - 1 == dest || right - 1 == dest
    ensures EmitArithFpu(op, left, right, dest, pop).Some?
    ensures Exec(EmitArithFpu(op, left, right, dest, pop).value, m)
         == Some(ArithEffect(m, dest, pop, ArithValue(op, St(m, left), St(m, right))))
  {
    hide Exec, Exec1, ArithOpcode, ArithByte, ArithValue, EmitArithFpu, EmitFarith, SetSt, Drop, St;
    var i := if left == 0 then right else left;
    Selected(op, left, right, dest, pop);
    RunSelected(op, left == 0, i, if pop then 0xDE else if dest == 0 then 0xD8 else 0xDC, m);
    assert if pop then dest + 1 == i else dest == 0 || dest == i;
  }

  lemma RunSelected(op: ArithOp, leftIsTos: bool, i: int, b1: int, m: Machine)
    requires b1 == 0xD8 || b1 == 0xDC || b1 == 0xDE
    requires 0 <= i < |m.st| <= NOF_FPU_REGS
    ensures
      var l, r := if leftIsTos then 0 else i, if leftIsTos then i else 0;
      var v := ArithValue(op, St(m, l), St(m, r));
      && EmitFarith(b1, ArithByte(op, leftIsTos), i).Some?
      && Exec(EmitFarith(b1, ArithByte(op, leftIsTos), i).value, m)
         == Some(if b1 == 0xD8 then SetSt(m, 0, v) else if b1 == 0xDC then SetSt(m, i, v) else Drop(SetSt(m, i, v)))
  {
    hide Exec, Exec1, ArithOpcode, ArithByte, ArithValue, EmitFarith, SetSt, Drop, St;
    var l, r := St(m, if leftIsTos then 0 else i), St(m, if leftIsTos then i else 0);
    ArithByteValue(op, leftIsTos, l, r);
    RunFarith(b1, ArithByte(op, leftIsTos), i, m, ArithValue(op, l, r));
  }

  /** A constant pushed, used to overwrite a slot below it, and popped. */
  lemma PushedPopped(m: Machine, k: int, c: Value, v: Value)
    requires 0 <= k < |m.st|
    ensures Drop(SetSt(Pushed(m, c), k + 1, v)) == SetSt(m, k, v)
  {
    assert Drop(SetSt(Pushed(m, c), k + 1, v)).st == SetSt(m, k, v).st;
  }

  lemma FldBias(bias: Value, m: Machine)
    requires |m.st| < NOF_FPU_REGS
    ensures Exec1(FldConst(bias), m) == Some(Pushed(m, bias))
  {
  }

  lemma ScaleOpcode(bias: Value, k: int, m: Machine)
    requires 0 <= k < |m.st|
    ensures ArithOpcode(0xC8, St(Pushed(m, bias), 0), St(Pushed(m, bias), k + 1)) == Some(Times(St(m, k), bias))
  {
    Commute(bias, St(m, k));
  }

  lemma RunScale(bias: Value, k: int, m: Machine)
    requires 0 <= k < |m.st| < NOF_FPU_REGS
    ensures EmitScale(bias, k).Some?
    ensures Exec(EmitScale(bias, k).value, m) == Some(SetSt(m, k, Times(St(m, k), bias)))
  {
    hide Exec, Exec1, ArithOpcode, Times;
    var m1, v := Pushed(m, bias), Times(St(m, k), bias);
    FldBias(bias, m);
    ScaleOpcode(bias, k, m);
    RunFarith(0xDE, 0xC8, k + 1, m1, v);
    PushedPopped(m, k, bias, v);
    ExecTwo(FldConst(bias), Farith(0xDE, 0xC8, k + 1), m, m1, SetSt(m, k, v));
  }

  predicate ArithIndicesOk(left: int, right: Opr, dest: int, pop: bool, size: int) {
    && 0 <= left < size && 0 <= dest
    && if right.Offset? then
         && 0 <= right.k < size && (left == 0 || right.k == 0)
         && if pop then left - 1 == dest || right.k - 1 == dest else left == dest
       else right.Mem? && left == dest == 0 && !pop
  }

  function RightValue(right: Opr, m: Machine): Value
    requires if right.Offset? then 0 <= right.k < |m.st| else right.Mem?
  {
    if right.Offset? then St(m, right.k) else Content(right, m.out)
  }

  lemma RunArithMem(op: ArithOp, right: Opr, m: Machine)
    requires |m.st| > 0 && right.Mem?
    ensures Exec([FarithMem(op, right)], m)
         == Some(SetSt(m, 0, ArithValue(op, St(m, 0), Content(right, m.out))))
  {
    hide ArithValue, Exec;
    ExecSingle(FarithMem(op, right), m);
  }

  lemma RunArithCore(op: ArithOp, left: int, right: Opr, dest: int, pop: bool, m: Machine)
    requires |m.st| <= NOF_FPU_REGS && ArithIndicesOk(left, right, dest, pop, |m.st|)
    ensures EmitArithCore(op, left, right, dest, pop).Some?
    ensures Exec(EmitArithCore(op, left, right, dest, pop).value, m)
         == Some(ArithEffect(m, dest, pop, ArithValue(op, St(m, left), RightValue(right, m))))
  {
    if right.Offset? {
      ArithSelection(op, left, right.k, dest, pop, m);
    } else {
      RunArithMem(op, right, m);
    }
  }

  /** Scaling the left operand in place and the destination afterwards leaves no other trace. */
  lemma ScaledEffect(m: Machine, left: int, scaled: Value, dest: int, pop: bool, w: Value, v: Value)
    requires 0 <= left < |m.st| && 0 <= dest < |m.st| - if pop then 1 else 0
    requires if pop then left == dest + 1 || left == 0 else left == dest
    ensures SetSt(ArithEffect(SetSt(m, left, scaled), dest, pop, w), dest, v) == ArithEffect(m, dest, pop, v)
  {
    assert SetSt(ArithEffect(SetSt(m, left, scaled), dest, pop, w), dest, v).st
        == ArithEffect(m, dest, pop, v).st;
  }

  lemma ScaledOperands(m: Machine, left: int, right: Opr, dest: int, pop: bool, scaled: Value, w: Value)
    requires ArithIndicesOk(left, right, dest, pop, |m.st|) && (right.Offset? ==> right.k != left)
    ensures St(SetSt(m, left, scaled), left) == scaled
    ensures RightValue(right, SetSt(m, left, scaled)) == RightValue(right, m)
    ensures St(ArithEffect(SetSt(m, left, scaled), dest, pop, w), dest) == w
  {
  }

  lemma ExecChain(a: Option<seq<Instr>>, b: Option<seq<Instr>>, c: Option<seq<Instr>>,
                  m: Machine, m1: Machine, m2: Machine, m3: Machine)
    requires a.Some? && b.Some? && c.Some?
    requires Exec(a.value, m) == Some(m1) && Exec(b.value, m1) == Some(m2) && Exec(c.value, m2) == Some(m3)
    ensures Then(a, Then(b, c)).Some? && Exec(Then(a, Then(b, c)).value, m) == Some(m3)
  {
    ExecConcat(a.value, b.value + c.value, m);
    ExecConcat(b.value, c.value, m1);
  }

  lemma RunArithStrict(op: ArithOp, left: int, right: Opr, dest: int, pop: bool, m: Machine)
    requires |m.st| < NOF_FPU_REGS && ArithIndicesOk(left, right, dest, pop, |m.st|)
    requires right.Offset? ==> right.k != left
    ensures EmitArith(op, StrictDouble, Offset(left), right, Offset(dest), pop).Some?
    ensures Exec(EmitArith(op, StrictDouble, Offset(left), right, Offset(dest), pop).value, m)
         == Some(ArithEffect(m, dest, pop, ArithResult(op, StrictDouble, St(m, left), RightValue(right, m))))
  {
    hide Exec, EmitScale, EmitArithCore, Times, ArithValue, SetSt;
    var scaled := Times(St(m, left), Bias1);
    var m1 := SetSt(m, left, scaled);
    var w := ArithValue(op, scaled, RightValue(right, m));
    var m2 := ArithEffect(m1, dest, pop, w);
    var m3 := SetSt(m2, dest, Times(w, Bias2));
    ScaledOperands(m, left, right, dest, pop, scaled, w);
    RunScale(Bias1, left, m);
    RunArithCore(op, left, right, dest, pop, m1);
    RunScale(Bias2, dest, m2);
    ScaledEffect(m, left, scaled, dest, pop, w, Times(w, Bias2));
    ExecChain(EmitScale(Bias1, left), EmitArithCore(op, left, right, dest, pop), EmitScale(Bias2, dest), m, m1, m2, m3);
  }

  /** With both operands in one slot the scaling also hits the right operand. */
  lemma RunArithStrictSame(op: ArithOp, m: Machine)
    requires 0 < |m.st| < NOF_FPU_REGS
    ensures EmitArith(op, StrictDouble, Offset(0), Offset(0), Offset(0), false).Some?
    ensures var scaled := Times(St(m, 0), Bias1);
      Exec(EmitArith(op, StrictDouble, Offset(0), Offset(0), Offset(0), false).value, m)
        == Some(SetSt(m, 0, Times(ArithValue(op, scaled, scaled), Bias2)))
  {
    hide Exec, EmitScale, EmitArithCore, Times, ArithValue;
    var scaled := Times(St(m, 0), Bias1);
    var m1, w := SetSt(m, 0, scaled), ArithValue(op, scaled, scaled);
    var m2 := SetSt(m1, 0, w);
    RunScale(Bias1, 0, m);
    RunArithCore(op, 0, Offset(0), 0, false, m1);
    RunScale(Bias2, 0, m2);
    assert SetSt(m2, 0, Times(w, Bias2)).st == SetSt(m, 0, Times(w, Bias2)).st;
    ExecChain(EmitScale(Bias1, 0), EmitArithCore(op, 0, Offset(0), 0, false), EmitScale(Bias2, 0), m, m1, m2,
              SetSt(m, 0, Times(w, Bias2)));
  }

  /** A strict double operation is right if and only if its operands are in different places. */
  lemma StrictExact(op: ArithOp, left: int, right: Opr, dest: int, pop: bool, m: Machine)
    requires |m.st| < NOF_FPU_REGS && ArithIndicesOk(left, right, dest, pop, |m.st|)
    ensures EmitArith(op, StrictDouble, Offset(left), right, Offset(dest), pop).Some?
    ensures Exec(EmitArith(op, StrictDouble, Offset(left), right, Offset(dest), pop).value, m)
         == Some(ArithEffect(m, dest, pop, ArithResult(op, StrictDouble, St(m, left), RightValue(right, m))))
         <==> right != Offset(left)
  {
    hide Exec, EmitArith, Times, ArithValue;
    if right != Offset(left) {
      RunArithStrict(op, left, right, dest, pop, m);
    } else {
      var x := St(m, 0);
      var scaled := Times(x, Bias1);
      var a, b := Times(ArithValue(op, scaled, scaled), Bias2), Times(ArithValue(op, scaled, x), Bias2);
      RunArithStrictSame(op, m);
      ScalingShows(op, x);
      assert St(SetSt(m, 0, a), 0) == a && St(SetSt(m, 0, b), 0) == b;
    }
  }

  lemma ScalingShows(op: ArithOp, x: Value)
    ensures var scaled := Times(x, Bias1);
      Times(ArithValue(op, scaled, scaled), Bias2) != Times(ArithValue(op, scaled, x), Bias2)
  {
    var scaled := Times(x, Bias1);
    assert x in scaled.factors;
    assert scaled != x;
    PairsDiffer(scaled, scaled, x);
    PairsDiffer(Bias2, ArithValue(op, scaled, scaled), ArithValue(op, scaled, x));
  }

  lemma PairCancels<T>(c: T, a: T, b: T)
    requires a != b
    ensures multiset{c, a} != multiset{c, b}
  {
    assert multiset{c, a}[a] != multiset{c, b}[a];
  }

  lemma PairsDiffer(c: Value, a: Value, b: Value)
    requires a != b
    ensures Plus(c, a) != Plus(c, b) && Times(c, a) != Times(c, b)
    ensures Times(a, c) != Times(b, c)
  {
    PairCancels(c, a, b);
    Commute(a, c);
    Commute(b, c);
    assert Plus(c, a).addends != Plus(c, b).addends;
  }

  /** The complete arithmetic operation, including the scaling of strict double operations,
      which needs one free slot. */
  lemma RunArith(op: Op, m: Machine)
    requires op.Op2? && op.code2.Arith? && op.left.Offset? && op.res.Offset?
    requires |m.st| <= NOF_FPU_REGS && ArithIndicesOk(op.left.k, op.right, op.res.k, op.pop, |m.st|)
    requires op.code2.strictness == StrictDouble ==>
               |m.st| < NOF_FPU_REGS && (op.right.Offset? ==> op.right.k != op.left.k)
    ensures RunOp(op, m) == Some(ArithEffect(m, op.res.k, op.pop,
              ArithResult(op.code2.op, op.code2.strictness, St(m, op.left.k), RightValue(op.right, m))))
  {
    if op.code2.strictness == StrictDouble {
      RunArithStrict(op.code2.op, op.left.k, op.right, op.res.k, op.pop, m);
    } else {
      RunArithCore(op.code2.op, op.left.k, op.right, op.res.k, op.pop, m);
    }
  }
}
