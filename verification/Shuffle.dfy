/** Code that only rearranges the stack: exchanges, pops, and loads of the constant zero.

Such code is followed on stack positions instead of values; what it does to any stack of
values follows from that.
*/
module Shuffle {
  import opened Stacks
  import opened Options
  import opened Lir
  import opened X87

  /** Adds a register that has no value: load of the constant zero. */
  const ADD_OP := Op1(Move, ZeroConst, Offset(0), false)

  /** The position a slot's content came from, or -1 for a constant zero. */
  function ShuffleOp(op: Op, p: seq<int>): Option<seq<int>> {
    if op.Fxch? && 0 <= op.k < |p| then Some(SwapTop(p, op.k))
    else if op.FpopRaw? && |p| > 0 then Some(Pop(p))
    else if op == ADD_OP && |p| < NOF_FPU_REGS then Some(p + [-1])
    else None
  }

  function Shuffled(ops: seq<Op>, p: seq<int>): Option<seq<int>> {
    if ops == [] then Some(p)
    else match Shuffled(ops[..|ops| - 1], p)
      case None => None
      case Some(q) => ShuffleOp(ops[|ops| - 1], q)
  }

  lemma ShuffledAppend(ops: seq<Op>, op: Op, p: seq<int>)
    ensures Shuffled(ops + [op], p) == match Shuffled(ops, p) case None => None case Some(q) => ShuffleOp(op, q)
  {
    assert (ops + [op])[..|ops|] == ops;
  }

  function Positions(n: nat): (p: seq<int>)
    ensures |p| == n && forall i :: 0 <= i < n ==> p[i] == i
  {
    seq(n, i => i)
  }

  function Pick(p: seq<int>, st: seq<Value>): (r: seq<Value>)
    ensures |r| == |p|
    ensures forall j :: 0 <= j < |p| ==> r[j] == if 0 <= p[j] < |st| then st[p[j]] else Zero
  {
    seq(|p|, j requires 0 <= j < |p| => if 0 <= p[j] < |st| then st[p[j]] else Zero)
  }

  lemma ShuffleOpRun(op: Op, p: seq<int>, m: Machine, st: seq<Value>)
    requires ShuffleOp(op, p).Some? && |p| <= NOF_FPU_REGS && m.st == Pick(p, st)
    ensures RunOp(op, m) == Some(m.(st := Pick(ShuffleOp(op, p).value, st)))
    ensures |ShuffleOp(op, p).value| <= NOF_FPU_REGS
  {
    hide RunOp;
    var q := ShuffleOp(op, p).value;
    if op.Fxch? {
      RunFxch(op.k, m);
      assert SwapTop(m.st, op.k) == Pick(q, st);
    } else if op.FpopRaw? {
      RunFpop(m);
      assert Pop(m.st) == Pick(q, st);
    } else {
      RunLoad(op, m);
      assert m.st + [Zero] == Pick(q, st);
    }
  }

  /** Following positions predicts the values, whatever they are. */
  lemma {:induction false} ShuffleRun(ops: seq<Op>, m: Machine)
    requires |m.st| <= NOF_FPU_REGS && Shuffled(ops, Positions(|m.st|)).Some?
    ensures var p := Shuffled(ops, Positions(|m.st|)).value;
            |p| <= NOF_FPU_REGS && RunOps(ops, m) == Some(m.(st := Pick(p, m.st)))
  {
    if ops == [] {
      assert Pick(Positions(|m.st|), m.st) == m.st;
    } else {
      var rest, last := ops[..|ops| - 1], ops[|ops| - 1];
      ShuffleRun(rest, m);
      var q := Shuffled(rest, Positions(|m.st|)).value;
      ShuffleOpRun(last, q, m.(st := Pick(q, m.st)), m.st);
    }
  }

  lemma {:induction false} ShuffledStraight(ops: seq<Op>, p: seq<int>)
    requires Shuffled(ops, p).Some?
    ensures Branches(ops) == []
  {
    if ops != [] {
      ShuffledStraight(ops[..|ops| - 1], p);
    }
  }

  /** The code turns any machine stack laid out like `from` into one laid out like `to`
      without effects or branches, and every register on both keeps its value. */
  ghost predicate Carries(ops: seq<Op>, from: seq<int>, to: seq<int>) {
    && Branches(ops) == []
    && forall m: Machine :: |m.st| == |from| ==>
      && RunOps(ops, m).Some?
      && RunOps(ops, m).value.out == m.out
      && CarriesValues(from, m.st, to, RunOps(ops, m).value.st)
  }

  ghost predicate CarriesValues(from: seq<int>, st: seq<Value>, to: seq<int>, st': seq<Value>) {
    && |st| == |from| && |st'| == |to|
    && forall i, j :: 0 <= i < |from| && 0 <= j < |to| && from[i] == to[j] ==> st'[j] == st[i]
  }

  // ----- instruction counts -----

  function Xchgs(ops: seq<Op>): nat {
    if ops == [] then 0 else Xchgs(ops[..|ops| - 1]) + if ops[|ops| - 1].Fxch? then 1 else 0
  }

  function Pops(ops: seq<Op>): nat {
    if ops == [] then 0 else Pops(ops[..|ops| - 1]) + if ops[|ops| - 1].FpopRaw? then 1 else 0
  }

  function Adds(ops: seq<Op>): nat {
    if ops == [] then 0 else Adds(ops[..|ops| - 1]) + if ops[|ops| - 1] == ADD_OP then 1 else 0
  }

  lemma CountAppend(ops: seq<Op>, op: Op)
    ensures Xchgs(ops + [op]) == Xchgs(ops) + if op.Fxch? then 1 else 0
    ensures Pops(ops + [op]) == Pops(ops) + if op.FpopRaw? then 1 else 0
    ensures Adds(ops + [op]) == Adds(ops) + if op == ADD_OP then 1 else 0
  {
    assert (ops + [op])[..|ops|] == ops;
  }
}
