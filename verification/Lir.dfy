/** The low-level intermediate representation the FPU stack allocator rewrites, with its
meaning over numbered FPU registers.

Values are terms: two equal terms are equal under every interpretation of the floating
point operations. Sums and products hold the multiset of their operands, so addition and
multiplication commute and nothing else is assumed about them. What an operand outside the
FPU holds is a term over its address and the whole history of effects, so it may depend on
anything that happened before.
*/
module Lir {
  import opened Options
  import opened Stacks

  datatype Value =
    | Loaded(addr: int, history: seq<Event>)
    | FromInt(addr: int, history: seq<Event>)
    | CallResult(id: int, history: seq<Event>)
    | Zero | Ln2 | Lg2 | Bias1 | Bias2
    | Sum(addends: multiset<Value>)
    | Product(factors: multiset<Value>)
    | Difference(minuend: Value, subtrahend: Value)
    | Quotient(dividend: Value, divisor: Value)
    | Remainder(dividend: Value, divisor: Value)
    | Negated(arg: Value) | AbsOf(arg: Value) | SqrtOf(arg: Value)
    | Yl2x(y: Value, x: Value)
    | Applied(fn: Intrinsic, arg: Value)
    | Power(base: Value, exponent: Value)

  /** What the surrounding program can observe of the FPU code. */
  datatype Event =
    | Stored(addr: int, v: Value)
    | StoredInt(addr: int, v: Value)
    | ConvertedToLong(v: Value)
    | Compared(kind: CmpKind, left: Value, right: Value)
    | Returned(result: Option<Value>)
    | Call(id: int)
    | CpuWork(op: Op)
    | Raised(op: Op)

  datatype Intrinsic = Sin | Cos | Tan | Exp
  datatype CmpKind = Cmp | CmpFd2i | UcmpFd2i
  datatype ArithOp = Add | Sub | Mul | Div
  datatype Strictness = Relaxed | StrictSingle | StrictDouble

  /** `Fpu` is a numbered FPU register before allocation, `Offset` a distance from the top of
      the FPU stack after it. `Mem` stands for memory, constants and CPU registers. */
  datatype Opr =
    | Fpu(reg: int, lastUse: bool)
    | Offset(k: int)
    | Xmm(addr: int)
    | Mem(addr: int)
    | ZeroConst
    | Illegal

  datatype Code1 =
    | Return | Move | Neg | ConvertFloat | ConvertFromInt | ConvertToInt | ConvertToLong
    | RoundFp | CpuOnly1

  datatype Code2 =
    | Compare(kind: CmpKind)
    | Arith(op: ArithOp, strictness: Strictness)
    | Rem | Abs | Sqrt | Log | Log10
    | Intrinsic(fn: Intrinsic)
    | Pow
    | CpuOnly2

  datatype Op =
    | Op1(code1: Code1, arg: Opr, res: Opr, pop: bool)
    | Op2(code2: Code2, left: Opr, right: Opr, res: Opr, tmp1: Opr, tmp2: Opr,
          pop: bool, stackSize: nat)
    | OpCall(id: int, res: Opr)
    | OpBranch(toBlock: bool, always: bool)
    | OpOther(id: int)
      // inserted by the allocator only
    | Fxch(k: int)
    | Fld(k: int)
    | FpopRaw

  // ----- values -----

  function Plus(a: Value, b: Value): Value { Sum(multiset{a, b}) }
  function Times(a: Value, b: Value): Value { Product(multiset{a, b}) }

  lemma Commute(a: Value, b: Value)
    ensures Plus(a, b) == Plus(b, a)
    ensures Times(a, b) == Times(b, a)
  {
    assert multiset{a, b} == multiset{b, a};
  }

  function ArithValue(op: ArithOp, l: Value, r: Value): Value {
    match op
    case Add => Plus(l, r)
    case Sub => Difference(l, r)
    case Mul => Times(l, r)
    case Div => Quotient(l, r)
  }

  /** Strict double multiplication and division scale the left operand first and the result
      last. */
  function ArithResult(op: ArithOp, strictness: Strictness, l: Value, r: Value): Value {
    if strictness == StrictDouble
    then Times(ArithValue(op, Times(l, Bias1), r), Bias2)
    else ArithValue(op, l, r)
  }

  /** The content of an operand outside the FPU after a history of effects. */
  function Content(o: Opr, history: seq<Event>): Value
    requires IsExternal(o)
  {
    match o
    case ZeroConst => Zero
    case Mem(a) => Loaded(a, history)
    case Xmm(a) => Loaded(a, history)
  }

  // ----- well-formed operations -----

  predicate IsFpu(o: Opr) { o.Fpu? && IsReg(o.reg) }
  predicate IsLive(o: Opr, live: set<int>) { IsFpu(o) && o.reg in live }
  predicate IsExternal(o: Opr) { o.Mem? || o.Xmm? || o.ZeroConst? }
  predicate IsStorage(o: Opr) { o.Mem? || o.Xmm? }

  /** Operations that neither read nor write the FPU stack. */
  predicate Neutral(op: Op) {
    match op
    case Op1(code, arg, res, _) =>
      !code.Return? && !arg.Fpu? && !arg.Offset? && !res.Fpu? && !res.Offset?
    case Op2(code, left, right, res, _, _, _, _) =>
      !left.Fpu? && !left.Offset? && !right.Fpu? && !right.Offset? && !res.Fpu? && !res.Offset?
    case OpBranch(_, _) => true
    case OpOther(_) => true
    case _ => false
  }

  /** What the operation demands of register allocation: the registers it reads are live,
      and its operands have the shape the allocator asserts. */
  predicate OpOk(op: Op, live: set<int>) {
    || Neutral(op)
    || match op
       case Op1(code, arg, res, pop) => !pop && Op1Ok(code, arg, res, live)
       case Op2(code, left, right, res, tmp1, tmp2, pop, size) =>
         !pop && IsLive(left, live) && Op2Ok(code, left, right, res, tmp1, tmp2, live)
       case OpCall(_, res) => IsFpu(res) || !(res.Fpu? || res.Offset?)
       case _ => false
  }

  predicate Op1Ok(code: Code1, arg: Opr, res: Opr, live: set<int>) {
    match code
    case Return => IsLive(arg, live) || !(arg.Fpu? || arg.Offset?)
    case Move => (IsLive(arg, live) && (IsFpu(res) || IsStorage(res))) || (IsExternal(arg) && IsFpu(res))
    case Neg => IsLive(arg, live) && arg.lastUse && IsFpu(res)
    case ConvertFloat => IsLive(arg, live) && IsFpu(res)
    case ConvertFromInt => arg.Mem? && IsFpu(res)
    case ConvertToInt => IsLive(arg, live) && res.Mem?
    case ConvertToLong => IsLive(arg, live) && res.Mem?
    case RoundFp => IsLive(arg, live) && res.Mem?
    case CpuOnly1 => false
  }

  predicate Op2Ok(code: Code2, left: Opr, right: Opr, res: Opr, tmp1: Opr, tmp2: Opr, live: set<int>)
    requires IsLive(left, live)
  {
    match code
    case Compare(_) => IsLive(right, live)
    case Arith(op, strictness) =>
      && res == left
      && (if right.Fpu? then IsLive(right, live) && (right.lastUse ==> right.reg != left.reg)
          else right.Mem?)
      && (strictness != Relaxed ==>
            && (op.Mul? || op.Div?)
            && IsFpu(tmp1) && tmp1.reg != left.reg
            && (right.Fpu? ==> tmp1.reg != right.reg)
               // scaling left in place must not scale right too
            && (strictness == StrictDouble && right.Fpu? ==> right.reg != left.reg))
    case Rem => IsLive(right, live) && right.reg != left.reg && res == left
    case Abs => left.lastUse && IsFpu(res) && right.Illegal?
    case Sqrt => left.lastUse && IsFpu(res) && right.Illegal?
    case Log => IsFpu(res) && right.Illegal? && IsTemp(tmp1, left, res)
    case Log10 => IsFpu(res) && right.Illegal? && IsTemp(tmp1, left, res)
    case Intrinsic(_) =>
      && IsFpu(res) && IsTemp(right, left, res) && IsTemp(tmp1, left, res)
      && right.reg != tmp1.reg
    case Pow =>
      && IsLive(right, live) && right.reg != left.reg
      && IsFpu(res) && res.reg != left.reg && res.reg != right.reg
      && IsTemp(tmp1, left, res) && IsTemp(tmp2, left, res)
      && tmp1.reg != tmp2.reg && tmp1.reg != right.reg && tmp2.reg != right.reg
    case CpuOnly2 => false
  }

  predicate IsTemp(t: Opr, left: Opr, res: Opr)
    requires left.Fpu?
  {
    IsFpu(t) && t.reg != left.reg && (res.Fpu? ==> t.reg != res.reg)
  }

  // ----- meaning over registers -----

  /** `env` gives the value of every live register; a register whose last use has passed, or
      that was used as a temporary, holds no value. */
  datatype State = State(env: map<int, Value>, out: seq<Event>)

  function AfterUse(env: map<int, Value>, o: Opr): map<int, Value>
    requires o.Fpu?
  {
    if o.lastUse then env - {o.reg} else env
  }

  /** One operation, executed on registers. */
  function Step(op: Op, s: State): State
    requires OpOk(op, s.env.Keys)
  {
    if Neutral(op) then
      if op.OpBranch? then s else s.(out := s.out + [CpuWork(op)])
    else match op
      case Op1(code, arg, res, _) => Step1(code, arg, res, s)
      case Op2(code, left, right, res, tmp1, tmp2, _, _) => Step2(code, left, right, res, tmp1, tmp2, s)
      case OpCall(id, res) =>
        var history := s.out + [Call(id)];
        State(if res.Fpu? then map[res.reg := CallResult(id, history)] else map[], history)
  }

  function Step1(code: Code1, arg: Opr, res: Opr, s: State): State
    requires Op1Ok(code, arg, res, s.env.Keys)
  {
    var env := s.env;
    match code
    case Return =>
      State(map[], s.out + [Returned(if arg.Fpu? then Some(env[arg.reg]) else None)])
    case Move =>
      if arg.Fpu? then
        if res.Fpu? then StepCopy(arg, res, s)
        else if res.Xmm? then State(env - {arg.reg}, s.out + [Stored(res.addr, env[arg.reg])])
        else State(AfterUse(env, arg), s.out + [Stored(res.addr, env[arg.reg])])
      else s.(env := env[res.reg := Content(arg, s.out)])
    case Neg => s.(env := AfterUse(env, arg)[res.reg := Negated(env[arg.reg])])
    case ConvertFloat => StepCopy(arg, res, s)
    case ConvertFromInt => s.(env := env[res.reg := FromInt(arg.addr, s.out)])
    case ConvertToInt => s.(out := s.out + [StoredInt(res.addr, env[arg.reg])])
    case ConvertToLong => State(env - {arg.reg}, s.out + [ConvertedToLong(env[arg.reg])])
    case RoundFp => State(AfterUse(env, arg), s.out + [Stored(res.addr, env[arg.reg])])
  }

  function StepCopy(arg: Opr, res: Opr, s: State): State
    requires IsLive(arg, s.env.Keys) && IsFpu(res)
  {
    if arg.reg == res.reg then s
    else s.(env := AfterUse(s.env, arg)[res.reg := s.env[arg.reg]])
  }

  function Step2(code: Code2, left: Opr, right: Opr, res: Opr, tmp1: Opr, tmp2: Opr, s: State): State
    requires IsLive(left, s.env.Keys) && Op2Ok(code, left, right, res, tmp1, tmp2, s.env.Keys)
  {
    var env := s.env;
    var l := env[left.reg];
    match code
    case Compare(kind) => State(AfterUse(env, left), s.out + [Compared(kind, l, env[right.reg])])
    case Arith(op, strictness) =>
      var r := if right.Fpu? then env[right.reg] else Content(right, s.out);
      var rest := if right.Fpu? then AfterUse(env, right) else env;
      var free := if strictness != Relaxed then rest - {tmp1.reg} else rest;
      s.(env := free[res.reg := ArithResult(op, strictness, l, r)])
    case Rem => s.(env := (env - {right.reg})[res.reg := Remainder(l, env[right.reg])])
    case Abs => s.(env := (env - {left.reg})[res.reg := AbsOf(l)])
    case Sqrt => s.(env := (env - {left.reg})[res.reg := SqrtOf(l)])
    case Log => s.(env := (env - {left.reg, tmp1.reg})[res.reg := Yl2x(Ln2, l)])
    case Log10 => s.(env := (env - {left.reg, tmp1.reg})[res.reg := Yl2x(Lg2, l)])
    case Intrinsic(fn) =>
      s.(env := (env - {left.reg, right.reg, tmp1.reg})[res.reg := Applied(fn, l)])
    case Pow =>
      s.(env := (env - {left.reg, right.reg, tmp1.reg, tmp2.reg})[res.reg := Power(l, env[right.reg])])
  }

  // ----- liveness -----

  /** The registers that hold a value after the operation, without running it. */
  function LiveAfter(op: Op, live: set<int>): set<int>
    requires OpOk(op, live)
  {
    if Neutral(op) then live
    else match op
      case Op1(code, arg, res, _) => LiveAfter1(code, arg, res, live)
      case Op2(code, left, right, res, tmp1, tmp2, _, _) =>
        LiveAfter2(code, left, right, res, tmp1, tmp2, live)
      case OpCall(_, res) => if res.Fpu? then {res.reg} else {}
  }

  function Without(live: set<int>, o: Opr): set<int>
    requires o.Fpu?
  {
    if o.lastUse then live - {o.reg} else live
  }

  function LiveAfter1(code: Code1, arg: Opr, res: Opr, live: set<int>): set<int>
    requires Op1Ok(code, arg, res, live)
  {
    match code
    case Return => {}
    case Move =>
      if !arg.Fpu? then live + {res.reg}
      else if res.Fpu? then if arg.reg == res.reg then live else Without(live, arg) + {res.reg}
      else if res.Xmm? then live - {arg.reg}
      else Without(live, arg)
    case Neg => Without(live, arg) + {res.reg}
    case ConvertFloat => if arg.reg == res.reg then live else Without(live, arg) + {res.reg}
    case ConvertFromInt => live + {res.reg}
    case ConvertToInt => live
    case ConvertToLong => live - {arg.reg}
    case RoundFp => Without(live, arg)
  }

  function LiveAfter2(code: Code2, left: Opr, right: Opr, res: Opr, tmp1: Opr, tmp2: Opr,
                      live: set<int>): set<int>
    requires IsLive(left, live) && Op2Ok(code, left, right, res, tmp1, tmp2, live)
  {
    match code
    case Compare(_) => Without(live, left)
    case Arith(_, strictness) =>
      var rest := if right.Fpu? then Without(live, right) else live;
      if strictness != Relaxed then rest - {tmp1.reg} + {res.reg} else rest + {res.reg}
    case Rem => live - {right.reg} + {res.reg}
    case Abs => live - {left.reg} + {res.reg}
    case Sqrt => live - {left.reg} + {res.reg}
    case Log => live - {left.reg, tmp1.reg} + {res.reg}
    case Log10 => live - {left.reg, tmp1.reg} + {res.reg}
    case Intrinsic(_) => live - {left.reg, right.reg, tmp1.reg} + {res.reg}
    case Pow => live - {left.reg, right.reg, tmp1.reg, tmp2.reg} + {res.reg}
  }

  /** The liveness analysis is exact: it names the registers that have a value afterwards. */
  lemma StepKeys(op: Op, s: State)
    requires OpOk(op, s.env.Keys)
    ensures Step(op, s).env.Keys == LiveAfter(op, s.env.Keys)
  {
    if !Neutral(op) {
      match op
      case Op1(code, arg, res, _) =>
        assert Step1(code, arg, res, s).env.Keys == LiveAfter1(code, arg, res, s.env.Keys);
      case Op2(code, left, right, res, tmp1, tmp2, _, _) =>
        assert Step2(code, left, right, res, tmp1, tmp2, s).env.Keys
            == LiveAfter2(code, left, right, res, tmp1, tmp2, s.env.Keys);
      case OpCall(_, res) =>
    }
  }

  /** A list of operations is well-formed when each finds its operands live. */
  predicate OpsOk(ops: seq<Op>, live: set<int>) {
    ops == [] || (OpOk(ops[0], live) && OpsOk(ops[1..], LiveAfter(ops[0], live)))
  }

  function LiveAfterAll(ops: seq<Op>, live: set<int>): set<int>
    requires OpsOk(ops, live)
  {
    if ops == [] then live else LiveAfterAll(ops[1..], LiveAfter(ops[0], live))
  }

  function StepAll(ops: seq<Op>, s: State): (r: State)
    requires OpsOk(ops, s.env.Keys)
    ensures r.env.Keys == LiveAfterAll(ops, s.env.Keys)
    decreases ops
  {
    if ops == [] then s else
      StepKeys(ops[0], s);
      StepAll(ops[1..], Step(ops[0], s))
  }

  // ----- control -----

  /** The branches of a list, in order. */
  function Branches(ops: seq<Op>): (r: seq<Op>)
    ensures |r| <= |ops| && forall i :: 0 <= i < |r| ==> r[i].OpBranch?
  {
    if ops == [] then []
    else Branches(ops[..|ops| - 1]) + if ops[|ops| - 1].OpBranch? then [ops[|ops| - 1]] else []
  }

  /** Control can get through the list: no branch in it is unconditional. */
  predicate Passes(ops: seq<Op>) {
    forall i :: 0 <= i < |Branches(ops)| ==> !Branches(ops)[i].always
  }

  /** Where branch number `n` stands. */
  function BranchAt(ops: seq<Op>, n: nat): (i: nat)
    requires n < |Branches(ops)|
    ensures i < |ops| && ops[i] == Branches(ops)[n] && Branches(ops[..i]) == Branches(ops)[..n]
  {
    var k := |ops| - 1;
    if n < |Branches(ops[..k])| then
      var i := BranchAt(ops[..k], n);
      assert ops[..k][..i] == ops[..i];
      i
    else k
  }

  /** How control leaves a list of operations: by the branch number `n`, or at its end. */
  datatype Exit = Taken(n: nat) | Falls

  /** How many operations are executed with that exit. What stands behind a branch that is taken, or
      behind an unconditional one, is not reached. */
  function Executed(ops: seq<Op>, x: Exit): (r: Option<nat>)
    ensures r.Some? ==> r.value <= |ops| && Passes(ops[..r.value])
    ensures r.Some? && x.Taken? ==> r.value < |ops| && ops[r.value].OpBranch? && |Branches(ops[..r.value])| == x.n
    ensures r.Some? && x.Falls? ==> r.value == |ops|
  {
    match x
    case Taken(n) =>
      if n < |Branches(ops)| && Passes(ops[..BranchAt(ops, n)]) then Some(BranchAt(ops, n)) else None
    case Falls =>
      assert ops[..|ops|] == ops;
      if Passes(ops) then Some(|ops|) else None
  }

  /** The exit leads to another block or to the end of this one, and not to a code stub. */
  predicate LeavesBlock(ops: seq<Op>, x: Exit)
    requires Executed(ops, x).Some?
  {
    x.Falls? || ops[Executed(ops, x).value].toBlock
  }

  lemma BranchesAppend(ops: seq<Op>, op: Op)
    ensures Branches(ops + [op]) == Branches(ops) + if op.OpBranch? then [op] else []
  {
    assert (ops + [op])[..|ops|] == ops;
  }

  lemma {:induction false} BranchesConcat(a: seq<Op>, b: seq<Op>)
    ensures Branches(a + b) == Branches(a) + Branches(b)
    decreases |b|
  {
    if b == [] {
      assert a + b == a;
    } else {
      var c, last := b[..|b| - 1], b[|b| - 1];
      assert a + b == (a + c) + [last] && b == c + [last];
      BranchesConcat(a, c);
      BranchesAppend(a + c, last);
    }
  }

  /** No two branches have the same number. */
  lemma BranchUnique(ops: seq<Op>, i: int, j: int)
    requires 0 <= i < j <= |ops| && ops[i].OpBranch?
    ensures |Branches(ops[..i])| < |Branches(ops[..j])| <= |Branches(ops)|
  {
    BranchesAppend(ops[..i], ops[i]);
    assert ops[..i] + [ops[i]] + ops[i + 1..j] == ops[..j] && ops[..j] + ops[j..] == ops;
    BranchesConcat(ops[..i] + [ops[i]], ops[i + 1..j]);
    BranchesConcat(ops[..j], ops[j..]);
  }

  /** The same exit of two lists with the same branches in front of it. */
  lemma SameExit(ops: seq<Op>, code: seq<Op>, x: Exit, i: nat, k: nat)
    requires Executed(ops, x) == Some(i) && k <= |code| && Branches(code[..k]) == Branches(ops[..i])
    requires if x.Taken? then k < |code| && code[k].OpBranch? else k == |code|
    ensures Executed(code, x) == Some(k)
  {
    if x.Taken? {
      BranchUnique(code, k, |code|);
      assert code[..|code|] == code;
      var j := BranchAt(code, x.n);
      if j < k {
        BranchUnique(code, j, k);
      } else if k < j {
        BranchUnique(code, k, j);
      }
    } else {
      assert code[..k] == code;
    }
  }

  // ----- exceptions -----

  predicate IsStore(op: Op) { op.Op1? && op.code1.Move? && op.arg.Fpu? && op.res.Mem? }
  predicate IsLoad(op: Op) { op.Op1? && op.code1.Move? && !op.arg.Fpu? && op.res.Fpu? }

  /** The state in which an operation raises an exception. Stores, loads, calls and operations without
      FPU operands raise before they take effect; a load has given up its destination by then, and a call
      all registers. Others are complete. */
  function AtRaise(op: Op, s: State): State
    requires OpOk(op, s.env.Keys)
  {
    if Neutral(op) || IsStore(op) then s
    else if op.OpCall? then s.(env := map[])
    else if IsLoad(op) then s.(env := s.env - {op.res.reg})
    else Step(op, s)
  }

  function LiveAtRaise(op: Op, live: set<int>): set<int>
    requires OpOk(op, live)
  {
    if Neutral(op) || IsStore(op) then live
    else if op.OpCall? then {}
    else if IsLoad(op) then live - {op.res.reg}
    else LiveAfter(op, live)
  }

  lemma RaiseKeys(op: Op, s: State)
    requires OpOk(op, s.env.Keys)
    ensures AtRaise(op, s).env.Keys == LiveAtRaise(op, s.env.Keys)
  {
    hide Step, LiveAfter;
    StepKeys(op, s);
  }
}
