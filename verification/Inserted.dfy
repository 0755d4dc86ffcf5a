/** What the rewriting of an operation adds to the code: never a branch other than the operation itself. */
module Inserted {
  import opened Stacks
  import opened Options
  import opened Lir
  import opened AllocSpec

  /** Code was added, and no branch in it. */
  ghost predicate Extends(a: Alloc, b: Alloc) {
    a.done <= b.done && forall i :: |a.done| <= i < |b.done| ==> !b.done[i].OpBranch?
  }

  lemma {:induction false} NoBranches(ops: seq<Op>)
    requires forall i :: 0 <= i < |ops| ==> !ops[i].OpBranch?
    ensures Branches(ops) == []
  {
    if ops != [] {
      NoBranches(ops[..|ops| - 1]);
    }
  }

  lemma ExtendsBranches(a: Alloc, b: Alloc)
    requires Extends(a, b)
    ensures Branches(b.done) == Branches(a.done)
  {
    var added := b.done[|a.done|..];
    assert b.done == a.done + added;
    NoBranches(added);
    BranchesConcat(a.done, added);
  }

  lemma ExchangeExtends(a: Alloc, k: int)
    requires WfStack(a.stack) && 0 <= k < |a.stack|
    ensures Extends(a, Exchange(a, k)) && Extends(a, Free(a, k))
  {
  }

  lemma FreeExtends(a: Alloc, r: int)
    requires WfStack(a.stack)
    ensures Extends(a, FreeIfDead(a, r))
    ensures r in a.stack ==> Extends(a, ExchangeReg(a, r))
  {
    if r in a.stack {
      ExchangeExtends(a, OffsetFromTos(a.stack, r));
    }
  }

  lemma {:induction false} ClearExtends(a: Alloc, preserve: Option<int>)
    requires WfStack(a.stack) && (preserve.Some? ==> preserve.value in a.stack)
    ensures Extends(a, Clear(a, preserve))
    decreases |a.stack|, if preserve.Some? && a.stack != [] && Slot(a.stack, 0) == preserve.value then 1 else 0
  {
    hide Exchange, Free;
    if |a.stack| <= (if preserve.Some? then 1 else 0) {
    } else if preserve.None? || Slot(a.stack, 0) != preserve.value {
      ExchangeExtends(a, 0);
      ClearExtends(Free(a, 0), preserve);
    } else {
      ExchangeExtends(a, |a.stack| - 1);
      ClearExtends(Exchange(a, |a.stack| - 1), preserve);
    }
  }

  lemma Chain(a: Alloc, b: Alloc, c: Alloc)
    requires Extends(a, b) && Extends(b, c)
    ensures Extends(a, c)
  {
  }

  lemma FreeUnlessExtends(a: Alloc, r: int, ignore: int)
    requires WfStack(a.stack)
    ensures Extends(a, FreeUnless(a, r, ignore))
  {
    FreeExtends(a, r);
  }

  lemma CopyExtends(a: Alloc, arg: Opr, res: Opr)
    requires WfStack(a.stack) && arg.Fpu? && arg.reg in a.stack && IsFpu(res)
    ensures Extends(a, CopyReg(a, arg, res))
  {
    FreeExtends(a, res.reg);
  }

  lemma BothToTopExtends(a: Alloc, l: int, r: int)
    requires WfStack(a.stack) && l in a.stack && r in a.stack && l != r
    ensures Extends(a, BothToTop(a, l, r))
  {
    hide Exchange, ExchangeReg;
    assert |a.stack| >= 2 by { assert IndexOf(a.stack, l) != IndexOf(a.stack, r); }
    if OffsetFromTos(a.stack, r) != 1 {
      FreeExtends(a, r);
      var b := ExchangeReg(a, r);
      ExchangeExtends(b, 1);
      FreeExtends(Exchange(b, 1), l);
      Chain(a, b, Exchange(b, 1));
    } else {
      FreeExtends(a, l);
    }
  }

  lemma Op1Extends(a: Alloc, code: Code1, arg: Opr, res: Opr)
    requires WfStack(a.stack) && Op1Ok(code, arg, res, Elements(a.stack))
    ensures Extends(a, HandleOp1(a, code, arg, res))
  {
    hide Clear, ExchangeReg, FreeIfDead, FreeUnless, CopyReg, OffsetFromTos;
    if code.Return? {
      ClearExtends(a, if arg.Fpu? then Some(arg.reg) else None);
    } else if arg.Fpu? && res.Fpu? && !code.Neg? {
      CopyExtends(a, arg, res);
    } else if code.Neg? {
      FreeUnlessExtends(a, res.reg, arg.reg);
      FreeExtends(FreeUnless(a, res.reg, arg.reg), arg.reg);
    } else if arg.Fpu? {
      FreeExtends(a, arg.reg);
    } else {
      FreeExtends(a, res.reg);
    }
  }

  lemma UnaryExtends(a: Alloc, op: Op)
    requires WfStack(a.stack) && op.Op2? && op.left.Fpu? && op.left.reg in a.stack && IsFpu(op.res)
    ensures Extends(a, HandleUnary(a, op))
  {
    hide ExchangeReg, FreeUnless;
    FreeUnlessExtends(a, op.res.reg, op.left.reg);
    FreeExtends(FreeUnless(a, op.res.reg, op.left.reg), op.left.reg);
  }

  lemma ArithExtends(a: Alloc, op: Op)
    requires WfStack(a.stack) && op.Op2? && op.code2.Arith? && IsLive(op.left, Elements(a.stack))
    requires Op2Ok(op.code2, op.left, op.right, op.res, op.tmp1, op.tmp2, Elements(a.stack))
    ensures Extends(a, HandleArith(a, op))
  {
    hide ExchangeReg, FreeIfDead, OffsetFromTos;
    var b := if op.code2.strictness != Relaxed then FreeIfDead(a, op.tmp1.reg) else a;
    if op.code2.strictness != Relaxed {
      FreeExtends(a, op.tmp1.reg);
    }
    FreeExtends(b, op.left.reg);
  }

  lemma PowExtends(a: Alloc, op: Op)
    requires WfStack(a.stack) && op.Op2? && op.code2.Pow? && IsLive(op.left, Elements(a.stack))
    requires Op2Ok(op.code2, op.left, op.right, op.res, op.tmp1, op.tmp2, Elements(a.stack))
    ensures Extends(a, HandlePow(a, op))
  {
    hide FreeIfDead, FreeUnless, BothToTop;
    var b := FreeIfDead(a, op.tmp1.reg);
    var c := FreeIfDead(b, op.tmp2.reg);
    var f := FreeUnless(c, op.res.reg, op.right.reg);
    FreeExtends(a, op.tmp1.reg);
    FreeExtends(b, op.tmp2.reg);
    FreeUnlessExtends(c, op.res.reg, op.right.reg);
    BothToTopExtends(f, op.left.reg, op.right.reg);
    Chain(a, b, c);
    Chain(a, c, f);
  }

  lemma Op2Extends(a: Alloc, op: Op)
    requires WfStack(a.stack) && op.Op2? && IsLive(op.left, Elements(a.stack))
    requires Op2Ok(op.code2, op.left, op.right, op.res, op.tmp1, op.tmp2, Elements(a.stack))
    ensures Extends(a, HandleOp2(a, op))
  {
    hide FreeIfDead, BothToTop, HandleUnary, HandlePow, HandleArith, ExchangeReg, OffsetFromTos;
    match op.code2
    case Compare(_) => FreeExtends(a, op.left.reg);
    case Arith(_, _) => ArithExtends(a, op);
    case Rem => BothToTopExtends(a, op.left.reg, op.right.reg);
    case Pow => PowExtends(a, op);
    case Intrinsic(_) =>
      var b := FreeIfDead(a, op.right.reg);
      FreeExtends(a, op.right.reg);
      FreeExtends(b, op.tmp1.reg);
      UnaryExtends(FreeIfDead(b, op.tmp1.reg), op);
    case Abs => UnaryExtends(a, op);
    case Sqrt => UnaryExtends(a, op);
    case Log =>
      FreeExtends(a, op.tmp1.reg);
      UnaryExtends(FreeIfDead(a, op.tmp1.reg), op);
    case Log10 =>
      FreeExtends(a, op.tmp1.reg);
      UnaryExtends(FreeIfDead(a, op.tmp1.reg), op);
  }

  lemma OpExtends(a: Alloc, op: Op)
    requires WfStack(a.stack) && OpOk(op, Elements(a.stack)) && !op.OpBranch?
    ensures Extends(a, HandleOp(a, op))
  {
    hide HandleOp1, HandleOp2, Clear;
    if !Neutral(op) {
      match op
      case Op1(code, arg, res, _) => Op1Extends(a, code, arg, res);
      case Op2(_, _, _, _, _, _, _, _) => Op2Extends(a, op);
      case OpCall(_, _) => ClearExtends(a, None);
    }
  }

  /** The branches of the original code are those of the rewritten one. */
  lemma OpBranches(a: Alloc, op: Op)
    requires WfStack(a.stack) && OpOk(op, Elements(a.stack))
    ensures a.done <= HandleOp(a, op).done
    ensures Branches(HandleOp(a, op).done) == Branches(a.done) + if op.OpBranch? then [op] else []
    ensures op.OpBranch? ==> HandleOp(a, op).done == a.done + [op]
  {
    hide HandleOp1, HandleOp2, Clear, OpOk;
    if op.OpBranch? {
      BranchesAppend(a.done, op);
    } else {
      OpExtends(a, op);
      ExtendsBranches(a, HandleOp(a, op));
    }
  }
}
