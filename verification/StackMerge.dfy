/** Making the stack at the end of a block agree with the stack its successor expects. */
module StackMerge {
  import opened Stacks
  import opened Options
  import opened Lir
  import opened X87
  import opened Shuffle
  import opened StackSim

  // ----- what merging keeps -----

  /** From the stack `o`, the code so far has produced the stack `c` on the way to `t`. Every
      register of `c` that was on `o` sits where its value went, and no register needed by
      `t` was lost. */
  ghost predicate Tracks(o: seq<int>, t: seq<int>, c: seq<int>, ops: seq<Op>, p: seq<int>) {
    && WfStack(o) && WfStack(t) && WfStack(c)
    && Shuffled(ops, Positions(|o|)) == Some(p)
    && |p| == |c|
    && (forall j :: 0 <= j < |c| && c[j] in o ==> 0 <= p[j] < |o| && o[p[j]] == c[j])
    && (forall r :: r in o && r in t ==> r in c)
  }

  lemma TrackFacts(o: seq<int>, t: seq<int>, c: seq<int>, ops: seq<Op>, p: seq<int>)
    requires Tracks(o, t, c, ops, p)
    ensures |p| == |c| && WfStack(o) && WfStack(t) && WfStack(c)
  {
  }

  lemma TrackXchg(o: seq<int>, t: seq<int>, c: seq<int>, ops: seq<Op>, p: seq<int>, k: int)
    requires Tracks(o, t, c, ops, p) && 0 <= k < |c|
    ensures Tracks(o, t, SwapTop(c, k), ops + [Fxch(k)], SwapTop(p, k))
  {
    ShuffledAppend(ops, Fxch(k), Positions(|o|));
    SwapKeepsWf(c, k);
  }

  lemma TrackPop(o: seq<int>, t: seq<int>, c: seq<int>, ops: seq<Op>, p: seq<int>)
    requires Tracks(o, t, c, ops, p) && c != [] && Slot(c, 0) !in t
    ensures Tracks(o, t, Pop(c), ops + [FpopRaw], Pop(p))
  {
    ShuffledAppend(ops, FpopRaw, Positions(|o|));
    forall r | r in o && r in t
      ensures r in Pop(c)
    {
      assert Pop(c)[IndexOf(c, r)] == r;
    }
  }

  /** Only a register the successor does not have is renamed, to one not on the stack. */
  lemma TrackRename(o: seq<int>, t: seq<int>, c: seq<int>, ops: seq<Op>, p: seq<int>, i: int, r: int)
    requires Tracks(o, t, c, ops, p) && 0 <= i < |c| && c[i] !in t && r in t && r !in c
    ensures Tracks(o, t, c[i := r], ops, p)
  {
    forall x | x in o && x in t
      ensures x in c[i := r]
    {
      assert c[i := r][IndexOf(c, x)] == x;
    }
  }

  lemma TrackAdd(o: seq<int>, t: seq<int>, c: seq<int>, ops: seq<Op>, p: seq<int>, r: int)
    requires Tracks(o, t, c, ops, p) && r in t && r !in c
    ensures |c| < NOF_FPU_REGS
    ensures Tracks(o, t, c + [r], ops + [ADD_OP], p + [-1])
  {
    FreeSlots(c, {r});
    ShuffledAppend(ops, ADD_OP, Positions(|o|));
  }

  lemma PickCarries(o: seq<int>, t: seq<int>, ops: seq<Op>, p: seq<int>, st: seq<Value>)
    requires Tracks(o, t, t, ops, p) && |st| == |o|
    ensures CarriesValues(o, st, t, Pick(p, st))
  {
    hide Shuffled, Pick;
    forall i, j | 0 <= i < |o| && 0 <= j < |t| && o[i] == t[j]
      ensures Pick(p, st)[j] == st[i]
    {
      assert o[p[j]] == o[i];
    }
  }

  lemma TrackDone(o: seq<int>, t: seq<int>, ops: seq<Op>, p: seq<int>)
    requires Tracks(o, t, t, ops, p)
    ensures Carries(ops, o, t)
  {
    hide RunOps, CarriesValues, Shuffled, Pick;
    FreeSlots(o, {});
    ShuffledStraight(ops, Positions(|o|));
    forall m: Machine | |m.st| == |o|
      ensures && RunOps(ops, m).Some?
              && RunOps(ops, m).value.out == m.out
              && CarriesValues(o, m.st, t, RunOps(ops, m).value.st)
    {
      ShuffleRun(ops, m);
      PickCarries(o, t, ops, p, m.st);
    }
  }

  // ----- progress -----

  /** Number of slots of `t`, counted from the bottom, that `c` does not yet agree with. */
  function Wrong(c: seq<int>, t: seq<int>): (w: nat)
    requires |t| <= |c|
    ensures w <= |t|
  {
    if t == [] then 0
    else
      var i := |t| - 1;
      Wrong(c, t[..i]) + if c[i] != t[i] then 1 else 0
  }

  function Miss(c: seq<int>, t: seq<int>, i: int): int
    requires 0 <= i < |c|
  {
    if i < |t| && c[i] != t[i] then 1 else 0
  }

  lemma {:induction false} WrongUpdate(c: seq<int>, t: seq<int>, i: int, r: int)
    requires |t| <= |c| && 0 <= i < |c|
    ensures Wrong(c[i := r], t) == Wrong(c, t) - Miss(c, t, i) + Miss(c[i := r], t, i)
  {
    if t != [] {
      WrongUpdate(c, t[..|t| - 1], i, r);
    }
  }

  lemma {:induction false} WrongPrefix(c: seq<int>, d: seq<int>, t: seq<int>)
    requires |t| <= |c| && |t| <= |d| && forall i :: 0 <= i < |t| ==> c[i] == d[i]
    ensures Wrong(c, t) == Wrong(d, t)
  {
    if t != [] {
      WrongPrefix(c, d, t[..|t| - 1]);
    }
  }

  lemma {:induction false} WrongZero(c: seq<int>, t: seq<int>)
    requires |t| <= |c| && forall i :: 0 <= i < |t| ==> c[i] == t[i]
    ensures Wrong(c, t) == 0
  {
    if t != [] {
      WrongZero(c, t[..|t| - 1]);
    }
  }

  /** An exchange changes the count only at the two slots it touches. */
  lemma {:induction false} WrongSwap(c: seq<int>, t: seq<int>, k: int)
    requires |t| <= |c| && 0 < k < |c|
    ensures var d, q, top := SwapTop(c, k), |c| - 1 - k, |c| - 1;
            Wrong(d, t) == Wrong(c, t) - Miss(c, t, q) - Miss(c, t, top) + Miss(d, t, q) + Miss(d, t, top)
  {
    var q, top := |c| - 1 - k, |c| - 1;
    var e := c[q := c[top]];
    var d := e[top := c[q]];
    WrongUpdate(c, t, q, c[top]);
    WrongUpdate(e, t, top, c[q]);
    assert d == SwapTop(c, k);
    assert Miss(e, t, top) == Miss(c, t, top) && Miss(e, t, q) == Miss(d, t, q);
  }

  function Foreign(c: seq<int>, t: seq<int>): set<int> {
    set r | r in c && r !in t
  }

  lemma ForeignSwap(c: seq<int>, t: seq<int>, k: int)
    requires WfStack(c) && 0 <= k < |c|
    ensures Foreign(SwapTop(c, k), t) == Foreign(c, t)
  {
    SwapKeepsWf(c, k);
  }

  lemma ForeignRename(c: seq<int>, t: seq<int>, i: int, r: int)
    requires WfStack(c) && 0 <= i < |c| && c[i] !in t && r in t
    ensures |Foreign(c[i := r], t)| == |Foreign(c, t)| - 1
  {
    forall x | x in Foreign(c, t) - {c[i]}
      ensures x in Foreign(c[i := r], t)
    {
      assert c[i := r][IndexOf(c, x)] == x;
    }
    assert Foreign(c[i := r], t) == Foreign(c, t) - {c[i]};
  }

  lemma ForeignPop(c: seq<int>, t: seq<int>)
    requires WfStack(c) && c != [] && Slot(c, 0) !in t
    ensures |Foreign(Pop(c), t)| == |Foreign(c, t)| - 1
  {
    forall x | x in Foreign(c, t) - {Slot(c, 0)}
      ensures x in Foreign(Pop(c), t)
    {
      assert Pop(c)[IndexOf(c, x)] == x;
    }
    assert Foreign(Pop(c), t) == Foreign(c, t) - {Slot(c, 0)};
  }

  // ----- the merge invariant -----

  /** Where the merge stands in a cycle of misplaced registers that does not pass through the
      top: `Started` after the top was exchanged away, `Running` until it comes back. */
  datatype Cycle = Settled | Running | Started

  function Debt(cycle: Cycle): nat {
    match cycle case Settled => 0 case Running => 4 case Started => 5
  }

  /** What the top of the successor, parked at slot `f` from the bottom, says about the cycle. */
  ghost predicate CycleOk(cycle: Cycle, c: seq<int>, t: seq<int>, f: int) {
    && (!cycle.Settled? ==> |c| == |t| && 0 <= f < |t| - 1 && c[f] == t[|t| - 1])
    && (cycle.Started? ==> Slot(c, 0) in t && Slot(c, 0) != t[f])
  }

  /** The bottom `f` slots are finished. Two for every exchange made and three for every slot
      still wrong never exceed the budget, apart from the debt of an open cycle. */
  ghost predicate MergeInv(o: seq<int>, t: seq<int>, c: seq<int>, ops: seq<Op>, p: seq<int>,
                           f: int, cycle: Cycle, budget: int) {
    && Tracks(o, t, c, ops, p)
    && |t| <= |c| && 0 <= f <= |t| && (f == 0 || |c| == |t|)
    && (forall i :: 0 <= i < f ==> c[i] == t[i])
    && CycleOk(cycle, c, t, f)
    && 2 * Xchgs(ops) + 3 * Wrong(c, t) <= budget + Debt(cycle)
  }

  ghost predicate TopMisplaced(c: seq<int>, t: seq<int>) {
    |c| > |t| || (|c| > 0 && Slot(c, 0) != t[|t| - 1])
  }

  function NextCycle(cycle: Cycle, index: int, f: int): Cycle {
    if cycle.Settled? || index == f then Settled else Running
  }

  /** The top is exchanged into its final slot: one slot more is right, and two if this closes
      the cycle. */
  lemma {:induction false} StepXchg(o: seq<int>, t: seq<int>, c: seq<int>, ops: seq<Op>, p: seq<int>,
                                    f: int, cycle: Cycle, budget: int)
    requires MergeInv(o, t, c, ops, p, f, cycle, budget) && c != [] && TopMisplaced(c, t) && Slot(c, 0) in t
    ensures var q := IndexOf(t, Slot(c, 0));
            var k := |c| - 1 - q;
            && 0 < k < |c|
            && MergeInv(o, t, SwapTop(c, k), ops + [Fxch(k)], SwapTop(p, k), f, NextCycle(cycle, q, f), budget)
            && Wrong(SwapTop(c, k), t) < Wrong(c, t)
            && Foreign(SwapTop(c, k), t) == Foreign(c, t)
            && (!cycle.Settled? && q == f ==> SwapTop(c, k)[f] == t[f] && Slot(SwapTop(c, k), 0) == t[|t| - 1])
  {
    hide Tracks;
    TrackFacts(o, t, c, ops, p);
    var q := IndexOf(t, Slot(c, 0));
    var k := |c| - 1 - q;
    TrackXchg(o, t, c, ops, p, k);
    WrongSwap(c, t, k);
    ForeignSwap(c, t, k);
    CountAppend(ops, Fxch(k));
  }

  /** Renaming slot `i`, which the successor does not have, to a register it misses. */
  lemma {:induction false} StepRename(o: seq<int>, t: seq<int>, c: seq<int>, ops: seq<Op>, p: seq<int>,
                                      f: int, cycle: Cycle, budget: int, i: int, r: int)
    requires MergeInv(o, t, c, ops, p, f, cycle, budget)
    requires 0 <= i < |c| && c[i] !in t && r in t && r !in c
    requires cycle.Settled? || i == |c| - 1
    ensures MergeInv(o, t, c[i := r], ops, p, f, cycle, budget)
    ensures Wrong(c[i := r], t) <= Wrong(c, t)
    ensures |Foreign(c[i := r], t)| == |Foreign(c, t)| - 1
  {
    TrackRename(o, t, c, ops, p, i, r);
    WrongUpdate(c, t, i, r);
    ForeignRename(c, t, i, r);
  }

  lemma {:induction false} StepPop(o: seq<int>, t: seq<int>, c: seq<int>, ops: seq<Op>, p: seq<int>,
                                   f: int, cycle: Cycle, budget: int)
    requires MergeInv(o, t, c, ops, p, f, cycle, budget) && |c| > |t| && Slot(c, 0) !in t
    ensures MergeInv(o, t, Pop(c), ops + [FpopRaw], Pop(p), f, cycle, budget)
    ensures Wrong(Pop(c), t) == Wrong(c, t)
    ensures |Foreign(Pop(c), t)| == |Foreign(c, t)| - 1
  {
    TrackPop(o, t, c, ops, p);
    WrongPrefix(c, Pop(c), t);
    ForeignPop(c, t);
    CountAppend(ops, FpopRaw);
  }

  /** The right top is exchanged away to bring up the register at the first wrong slot. */
  lemma {:induction false} StepOpenCycle(o: seq<int>, t: seq<int>, c: seq<int>, ops: seq<Op>, p: seq<int>,
                                         f: int, budget: int)
    requires MergeInv(o, t, c, ops, p, f, Settled, budget) && |c| == |t| && f < |t|
    requires Slot(c, 0) == t[|t| - 1] && c[f] != t[f] && c[f] in t
    ensures var k := |c| - 1 - f;
            && 0 < k < |c|
            && MergeInv(o, t, SwapTop(c, k), ops + [Fxch(k)], SwapTop(p, k), f, Started, budget)
            && Foreign(SwapTop(c, k), t) == Foreign(c, t)
  {
    hide Tracks;
    TrackFacts(o, t, c, ops, p);
    var k := |c| - 1 - f;
    TrackXchg(o, t, c, ops, p, k);
    WrongSwap(c, t, k);
    ForeignSwap(c, t, k);
    CountAppend(ops, Fxch(k));
  }

  /** A top foreign to the successor can only fail to be renamed while the stack is too deep. */
  lemma {:induction false} RenameSucceeds(o: seq<int>, t: seq<int>, c: seq<int>, ops: seq<Op>, p: seq<int>,
                                          f: int, cycle: Cycle, budget: int, r: int)
    requires MergeInv(o, t, c, ops, p, f, cycle, budget) && r in c && r !in t
    requires forall k :: 0 <= k <= |t| - 1 - f ==> Slot(t, k) in c
    ensures |c| > |t|
  {
    forall x | x in t
      ensures x in c
    {
      var i := IndexOf(t, x);
      if i < f {
        assert c[i] == x;
      } else {
        assert Slot(t, |t| - 1 - i) == x;
      }
    }
    Pigeonhole(t, c);
  }

  lemma MergeFacts(o: seq<int>, t: seq<int>, c: seq<int>, ops: seq<Op>, p: seq<int>, f: int, cycle: Cycle, budget: int)
    requires MergeInv(o, t, c, ops, p, f, cycle, budget)
    ensures WfStack(c) && WfStack(t) && |p| == |c| && |t| <= |c| && 0 <= f <= |t|
    ensures !cycle.Settled? ==> |c| == |t|
    ensures !cycle.Settled? && !TopMisplaced(c, t) ==> false
    ensures cycle.Started? ==> Slot(c, 0) in t
  {
  }

  // ----- the merge -----

  /** Renames the register at slot `change` to the first register of the successor, from slot
      `start` towards the top, that is not on the stack. */
  method MergeRename(cur: FpuStackSim, sux: FpuStackSim, start: int, change: int)
    returns (renamed: bool, ghost to: int)
    requires cur.Valid() && sux.Valid() && cur.regs != sux.regs
    requires -1 <= start < |sux.Contents()| && 0 <= change < |cur.Contents()|
    modifies cur.regs
    ensures cur.Valid() && sux.Valid() && sux.Contents() == old(sux.Contents())
    ensures renamed ==> to in sux.Contents() && to !in old(cur.Contents())
    ensures renamed ==> cur.Contents() == old(cur.Contents())[|old(cur.Contents())| - 1 - change := to]
    ensures !renamed ==> cur.Contents() == old(cur.Contents())
    ensures !renamed ==> forall k :: 0 <= k <= start ==> Slot(sux.Contents(), k) in cur.Contents()
  {
    to := 0;
    var slot := start;
    while slot >= 0
      invariant -1 <= slot <= start
      invariant cur.Valid() && cur.Contents() == old(cur.Contents())
      invariant forall k :: slot < k <= start ==> Slot(sux.Contents(), k) in cur.Contents()
    {
      var newReg := sux.GetSlot(slot);
      var found := cur.Contains(newReg);
      if !found {
        cur.SetSlot(change, newReg);
        assert newReg == Slot(sux.Contents(), slot);
        return true, newReg;
      }
      slot := slot - 1;
    }
    return false, to;
  }

  /** Registers the add phase has placed: those new to the stack are where they belong. */
  ghost predicate Landed(o: seq<int>, t: seq<int>, c: seq<int>, j: int) {
    && 0 <= j <= |t| && j <= |c|
    && (forall i :: 0 <= i < j ==> t[i] in c)
    && (forall i :: 0 <= i < j && t[i] !in o ==> c[i] == t[i])
    && (forall i :: j <= i < |t| && t[i] in c ==> t[i] in o)
  }

  lemma PrefixFits(t: seq<int>, c: seq<int>, j: int)
    requires WfStack(t) && WfStack(c) && 0 <= j <= |t| && forall i :: 0 <= i < j ==> t[i] in c
    ensures j <= |c|
  {
    assert forall r :: r in t[..j] ==> exists i :: 0 <= i < j && t[i] == r;
    Pigeonhole(t[..j], c);
  }

  function Placed<T>(c: seq<T>, r: T, k: int): (d: seq<T>)
    requires 0 <= k <= |c|
    ensures |d| == |c| + 1
    ensures forall i :: 0 <= i < |d| ==> d[i] == if i == |c| - k then r else if i == |c| then c[|c| - k] else c[i]
  {
    SwapTop(c + [r], k)
  }

  function PlacingOps(ops: seq<Op>, k: int): seq<Op> {
    if k > 0 then ops + [ADD_OP] + [Fxch(k)] else ops + [ADD_OP]
  }

  /** What the add phase keeps while it has scanned the bottom `j` registers of `t`. */
  ghost predicate AddInv(o: seq<int>, t: seq<int>, c: seq<int>, ops: seq<Op>, p: seq<int>, j: int) {
    && Tracks(o, t, c, ops, p) && Landed(o, t, c, j)
    && |c| == |o| + Adds(ops) && Xchgs(ops) <= Adds(ops) && Pops(ops) == 0
    && (Adds(ops) == 0 ==> ops == [] && c == o)
  }

  lemma LandedPlaced(o: seq<int>, t: seq<int>, c: seq<int>, j: int)
    requires WfStack(t) && WfStack(c) && Landed(o, t, c, j) && j < |t| && t[j] !in c
    ensures Landed(o, t, Placed(c, t[j], |c| - j), j + 1)
  {
    hide Placed;
    var d := Placed(c, t[j], |c| - j);
    assert d[j] == t[j];
    forall i | 0 <= i < j
      ensures t[i] in d && d[i] == c[i]
    {
      StaysPlaced(c, t[i], t[j], |c| - j);
    }
    forall i | j < i < |t| && t[i] in d
      ensures t[i] in o
    {
      OnlyPlaced(c, t[i], t[j], |c| - j);
    }
  }

  lemma OnlyPlaced(c: seq<int>, r: int, added: int, k: int)
    requires 0 <= k <= |c| && r in Placed(c, added, k) && r != added
    ensures r in c
  {
    var d := Placed(c, added, k);
    var x :| 0 <= x < |d| && d[x] == r;
    assert x != |c| - k;
    assert c[if x == |c| then |c| - k else x] == r;
  }

  lemma StaysPlaced(c: seq<int>, r: int, added: int, k: int)
    requires r in c && 0 <= k <= |c|
    ensures r in Placed(c, added, k)
  {
    var x :| 0 <= x < |c| && c[x] == r;
    assert Placed(c, added, k)[if x == |c| - k then |c| else x] == r;
  }

  /** A register pushed and exchanged to its bottom-aligned slot. */
  lemma {:induction false} AddStep(o: seq<int>, t: seq<int>, c: seq<int>, ops: seq<Op>, p: seq<int>, j: int)
    requires AddInv(o, t, c, ops, p, j) && j < |t| && t[j] !in c
    ensures j <= |c| == |p| && |c| < NOF_FPU_REGS
    ensures AddInv(o, t, Placed(c, t[j], |c| - j), PlacingOps(ops, |c| - j), Placed(p, -1, |c| - j), j + 1)
  {
    hide Tracks, Placed, PlacingOps, Adds, Xchgs, Pops;
    TrackFacts(o, t, c, ops, p);
    LandedPlaced(o, t, c, j);
    TrackPlaced(o, t, c, ops, p, t[j], |c| - j);
    CountPlacing(ops, |c| - j);
  }

  lemma TrackPlaced(o: seq<int>, t: seq<int>, c: seq<int>, ops: seq<Op>, p: seq<int>, r: int, k: int)
    requires Tracks(o, t, c, ops, p) && r in t && r !in c && 0 <= k <= |c|
    ensures |c| < NOF_FPU_REGS
    ensures Tracks(o, t, Placed(c, r, k), PlacingOps(ops, k), Placed(p, -1, k))
  {
    hide Tracks;
    TrackAdd(o, t, c, ops, p, r);
    if k > 0 {
      TrackXchg(o, t, c + [r], ops + [ADD_OP], p + [-1], k);
    } else {
      assert Placed(c, r, 0) == c + [r] && Placed(p, -1, 0) == p + [-1];
    }
  }

  lemma CountPlacing(ops: seq<Op>, k: int)
    ensures Adds(PlacingOps(ops, k)) == Adds(ops) + 1
    ensures Xchgs(ops) <= Xchgs(PlacingOps(ops, k)) <= Xchgs(ops) + 1
    ensures Pops(PlacingOps(ops, k)) == Pops(ops)
  {
    CountAppend(ops, ADD_OP);
    if k > 0 {
      CountAppend(ops + [ADD_OP], Fxch(k));
    }
  }

  lemma AddStart(o: seq<int>, t: seq<int>)
    requires WfStack(o) && WfStack(t)
    ensures AddInv(o, t, o, [], Positions(|o|), 0)
  {
  }

  /** While the stack is smaller than the successor's there is a register left to scan. */
  lemma AddGoesOn(o: seq<int>, t: seq<int>, c: seq<int>, ops: seq<Op>, p: seq<int>, j: int)
    requires AddInv(o, t, c, ops, p, j) && |c| < |t|
    ensures 0 <= j < |t| && j <= |c| == |p|
  {
    PrefixFits(t, c, j);
  }

  lemma AddSkip(o: seq<int>, t: seq<int>, c: seq<int>, ops: seq<Op>, p: seq<int>, j: int)
    requires AddInv(o, t, c, ops, p, j) && j < |t| && t[j] in c
    ensures AddInv(o, t, c, ops, p, j + 1)
  {
    PrefixFits(t, c, j + 1);
  }

  method MergeInsertAdd(ops: seq<Op>, cur: FpuStackSim, reg: int, k: int) returns (ops': seq<Op>)
    requires cur.Valid() && 0 <= k <= |cur.Contents()| < NOF_FPU_REGS
    modifies cur, cur.regs
    ensures cur.Valid() && cur.Contents() == Placed(old(cur.Contents()), reg, k)
    ensures ops' == PlacingOps(ops, k)
  {
    cur.Push(reg);
    ops' := ops + [ADD_OP];
    if k != 0 {
      ops' := ops' + [Fxch(k)];
      cur.Swap(k);
    } else {
      assert SwapTop(cur.Contents(), 0) == cur.Contents();
    }
  }

  /** Inexact register usage: registers the successor expects but the stack lacks are added
      while the stack is too small. The scan stops before it runs past the successor's top,
      every exchange stays inside the stack, and the added registers land in their final
      slots. */
  method MergeAdd(cur: FpuStackSim, sux: FpuStackSim)
    returns (ops: seq<Op>, sizeDiff: int, ghost p: seq<int>, ghost j: int)
    requires cur.Valid() && sux.Valid() && cur != sux && cur.regs != sux.regs
    requires WfStack(cur.Contents()) && WfStack(sux.Contents())
    modifies cur, cur.regs
    ensures cur.Valid() && sux.Valid() && sux.Contents() == old(sux.Contents())
    ensures AddInv(old(cur.Contents()), sux.Contents(), cur.Contents(), ops, p, j)
    ensures 0 <= sizeDiff == |cur.Contents()| - |sux.Contents()|
    ensures if |old(cur.Contents())| >= |sux.Contents()| then ops == [] else sizeDiff == 0
  {
    hide AddInv, Placed, PlacingOps;
    ghost var o, t := cur.Contents(), sux.Contents();
    ops, p, j := [], Positions(|o|), 0;
    AddStart(o, t);
    sizeDiff := cur.stackSize - sux.stackSize;
    var suxSlot := sux.stackSize - 1;
    while sizeDiff < 0
      invariant cur.Valid() && sux.Valid() && sux.Contents() == t
      invariant AddInv(o, t, cur.Contents(), ops, p, j)
      invariant suxSlot == |t| - 1 - j && sizeDiff == |cur.Contents()| - |t|
      invariant if |o| >= |t| then ops == [] && sizeDiff >= 0 else sizeDiff <= 0
      decreases suxSlot + 1
    {
      ghost var c := cur.Contents();
      AddGoesOn(o, t, c, ops, p, j);
      assert suxSlot >= 0;
      var reg := sux.GetSlot(suxSlot);
      var found := cur.Contains(reg);
      if !found {
        AddStep(o, t, c, ops, p, j);
        p := Placed(p, -1, |c| - j);
        sizeDiff := sizeDiff + 1;
        ops := MergeInsertAdd(ops, cur, reg, suxSlot + sizeDiff);
      } else {
        AddSkip(o, t, c, ops, p, j);
      }
      suxSlot := suxSlot - 1;
      j := j + 1;
    }
  }

  /** One step towards a right top: less is wrong or foreign afterwards, and what the code so
      far popped, added and closed is accounted for. */
  ghost predicate Stepped(t: seq<int>, f: int, c0: seq<int>, ops0: seq<Op>, cycle0: Cycle,
                          c: seq<int>, ops: seq<Op>, cycle: Cycle)
    requires |t| <= |c0| && |t| <= |c|
  {
    && Wrong(c, t) + |Foreign(c, t)| < Wrong(c0, t) + |Foreign(c0, t)|
    && |Foreign(c, t)| + |c0| - |c| <= |Foreign(c0, t)|
    && Pops(ops) == Pops(ops0) + |c0| - |c| && Adds(ops) == Adds(ops0)
    && (cycle0.Settled? ==> cycle.Settled?)
    && (cycle.Settled? && !cycle0.Settled? ==> 0 <= f < |t| && c[f] == t[f] && !TopMisplaced(c, t))
  }

  lemma {:induction false} SettleXchg(o: seq<int>, t: seq<int>, c: seq<int>, ops: seq<Op>, p: seq<int>,
                                      f: int, cycle: Cycle, budget: int)
    requires MergeInv(o, t, c, ops, p, f, cycle, budget) && c != [] && TopMisplaced(c, t) && Slot(c, 0) in t
    ensures var k := OffsetFromTos(t, Slot(c, 0)) + |c| - |t|;
            && 0 < k < |c| == |p|
            && var d, ops', cycle' := SwapTop(c, k), ops + [Fxch(k)], NextCycle(cycle, |c| - 1 - k, f);
               && MergeInv(o, t, d, ops', SwapTop(p, k), f, cycle', budget)
               && Stepped(t, f, c, ops, cycle, d, ops', cycle')
  {
    hide MergeInv;
    MergeFacts(o, t, c, ops, p, f, cycle, budget);
    StepXchg(o, t, c, ops, p, f, cycle, budget);
    CountAppend(ops, Fxch(|c| - 1 - IndexOf(t, Slot(c, 0))));
  }

  lemma {:induction false} SettleRename(o: seq<int>, t: seq<int>, c: seq<int>, ops: seq<Op>, p: seq<int>,
                                        f: int, cycle: Cycle, budget: int, r: int)
    requires MergeInv(o, t, c, ops, p, f, cycle, budget) && c != [] && Slot(c, 0) !in t && r in t && r !in c
    ensures MergeInv(o, t, c[|c| - 1 := r], ops, p, f, cycle, budget)
    ensures Stepped(t, f, c, ops, cycle, c[|c| - 1 := r], ops, cycle)
  {
    hide MergeInv;
    MergeFacts(o, t, c, ops, p, f, cycle, budget);
    StepRename(o, t, c, ops, p, f, cycle, budget, |c| - 1, r);
  }

  lemma {:induction false} SettlePop(o: seq<int>, t: seq<int>, c: seq<int>, ops: seq<Op>, p: seq<int>,
                                     f: int, cycle: Cycle, budget: int)
    requires MergeInv(o, t, c, ops, p, f, cycle, budget) && c != [] && Slot(c, 0) !in t
    requires forall k :: 0 <= k <= |t| - 1 - f ==> Slot(t, k) in c
    ensures |t| < |c| == |p|
    ensures MergeInv(o, t, Pop(c), ops + [FpopRaw], Pop(p), f, cycle, budget)
    ensures Stepped(t, f, c, ops, cycle, Pop(c), ops + [FpopRaw], cycle)
  {
    hide MergeInv;
    MergeFacts(o, t, c, ops, p, f, cycle, budget);
    RenameSucceeds(o, t, c, ops, p, f, cycle, budget, Slot(c, 0));
    StepPop(o, t, c, ops, p, f, cycle, budget);
    CountAppend(ops, FpopRaw);
  }

  method SettleStep(ops0: seq<Op>, cur: FpuStackSim, sux: FpuStackSim, sizeDiff0: int, finishedSlot: int,
                    ghost o: seq<int>, ghost t: seq<int>, ghost p0: seq<int>, ghost f: int, ghost cycle0: Cycle,
                    ghost budget: int)
    returns (ops: seq<Op>, sizeDiff: int, ghost p: seq<int>, ghost cycle: Cycle)
    requires cur.Valid() && sux.Valid() && cur != sux && cur.regs != sux.regs && sux.Contents() == t
    requires MergeInv(o, t, cur.Contents(), ops0, p0, f, cycle0, budget)
    requires sizeDiff0 == |cur.Contents()| - |t| && finishedSlot == |t| - 1 - f
    requires cur.Contents() != [] && TopMisplaced(cur.Contents(), t)
    modifies cur, cur.regs
    ensures cur.Valid() && sux.Valid() && sux.Contents() == t
    ensures MergeInv(o, t, cur.Contents(), ops, p, f, cycle, budget)
    ensures 0 <= sizeDiff == |cur.Contents()| - |t|
    ensures Stepped(t, f, old(cur.Contents()), ops0, cycle0, cur.Contents(), ops, cycle)
  {
    hide MergeInv, Stepped, WfStack, TopMisplaced, OffsetFromTos;
    ghost var c := cur.Contents();
    MergeFacts(o, t, c, ops0, p0, f, cycle0, budget);
    ops, sizeDiff, p, cycle := ops0, sizeDiff0, p0, cycle0;
    var reg := cur.GetSlot(0);
    var known := sux.Contains(reg);
    if known {
      var suxSlot := sux.TosOffset(reg);
      SettleXchg(o, t, c, ops, p, f, cycle, budget);
      p, cycle := SwapTop(p, suxSlot + sizeDiff), NextCycle(cycle, |c| - 1 - (suxSlot + sizeDiff), f);
      ops := ops + [Fxch(suxSlot + sizeDiff)];
      cur.Swap(suxSlot + sizeDiff);
    } else {
      ghost var to;
      var renamed;
      renamed, to := MergeRename(cur, sux, finishedSlot, 0);
      if renamed {
        SettleRename(o, t, c, ops, p, f, cycle, budget, to);
      } else {
        SettlePop(o, t, c, ops, p, f, cycle, budget);
        assert sizeDiff > 0;
        p := Pop(p);
        ops := ops + [FpopRaw];
        cur.PopTop();
        sizeDiff := sizeDiff - 1;
      }
    }
  }

  /** Steps until the top is right. An open cycle is closed on the way. */
  method SettleTop(ops0: seq<Op>, cur: FpuStackSim, sux: FpuStackSim, sizeDiff0: int, finishedSlot: int,
                   ghost o: seq<int>, ghost t: seq<int>, ghost p0: seq<int>, ghost f: int, ghost cycle0: Cycle,
                   ghost budget: int)
    returns (ops: seq<Op>, sizeDiff: int, ghost p: seq<int>)
    requires cur.Valid() && sux.Valid() && cur != sux && cur.regs != sux.regs && sux.Contents() == t
    requires MergeInv(o, t, cur.Contents(), ops0, p0, f, cycle0, budget)
    requires sizeDiff0 == |cur.Contents()| - |t| && finishedSlot == |t| - 1 - f
    modifies cur, cur.regs
    ensures cur.Valid() && sux.Valid() && sux.Contents() == t
    ensures MergeInv(o, t, cur.Contents(), ops, p, f, Settled, budget)
    ensures sizeDiff == 0 && |cur.Contents()| == |t| && !TopMisplaced(cur.Contents(), t)
    ensures !cycle0.Settled? ==> f < |t| && cur.Contents()[f] == t[f]
    ensures |Foreign(cur.Contents(), t)| + sizeDiff0 <= |Foreign(old(cur.Contents()), t)|
    ensures Pops(ops) == Pops(ops0) + sizeDiff0 && Adds(ops) == Adds(ops0)
  {
    hide MergeInv, Wrong, Foreign, Pops, Adds;
    ghost var cycle := cycle0;
    ops, sizeDiff, p := ops0, sizeDiff0, p0;
    MergeFacts(o, t, cur.Contents(), ops, p, f, cycle, budget);
    while sizeDiff > 0 || (cur.stackSize > 0 && cur.GetSlot(0) != sux.GetSlot(0))
      invariant cur.Valid() && sux.Valid() && sux.Contents() == t
      invariant MergeInv(o, t, cur.Contents(), ops, p, f, cycle, budget)
      invariant sizeDiff == |cur.Contents()| - |t| >= 0
      invariant cycle.Settled? && !cycle0.Settled? ==>
                  f < |t| && cur.Contents()[f] == t[f] && !TopMisplaced(cur.Contents(), t)
      invariant |Foreign(cur.Contents(), t)| + sizeDiff0 - sizeDiff <= |Foreign(old(cur.Contents()), t)|
      invariant Pops(ops) == Pops(ops0) + sizeDiff0 - sizeDiff && Adds(ops) == Adds(ops0)
      decreases Wrong(cur.Contents(), t) + |Foreign(cur.Contents(), t)|
    {
      ops, sizeDiff, p, cycle := SettleStep(ops, cur, sux, sizeDiff, finishedSlot, o, t, p, f, cycle, budget);
    }
    MergeFacts(o, t, cur.Contents(), ops, p, f, cycle, budget);
  }

  lemma FinishSlot(o: seq<int>, t: seq<int>, c: seq<int>, ops: seq<Op>, p: seq<int>, f: int, budget: int)
    requires MergeInv(o, t, c, ops, p, f, Settled, budget) && |c| == |t| && f < |t| && c[f] == t[f]
    ensures MergeInv(o, t, c, ops, p, f + 1, Settled, budget)
  {
  }

  lemma MergeEnds(o: seq<int>, t: seq<int>, c: seq<int>, ops: seq<Op>, p: seq<int>, cycle: Cycle, budget: int)
    requires MergeInv(o, t, c, ops, p, |t|, cycle, budget) && |c| == |t|
    ensures c == t && Carries(ops, o, t) && 2 * Xchgs(ops) <= budget
  {
    TrackDone(o, t, ops, p);
  }

  /** Passes over the finished slots from the bottom. */
  method SkipFinished(cur: FpuStackSim, sux: FpuStackSim, finishedSlot0: int, ops: seq<Op>,
                      ghost o: seq<int>, ghost t: seq<int>, ghost p: seq<int>, ghost f0: int, ghost budget: int)
    returns (finishedSlot: int, ghost f: int)
    requires cur.Valid() && sux.Valid() && sux.Contents() == t
    requires MergeInv(o, t, cur.Contents(), ops, p, f0, Settled, budget) && |cur.Contents()| == |t|
    requires finishedSlot0 == |t| - 1 - f0 && 0 <= f0 <= |t|
    ensures f0 <= f <= |t| && finishedSlot == |t| - 1 - f
    ensures MergeInv(o, t, cur.Contents(), ops, p, f, Settled, budget)
    ensures f < |t| ==> cur.Contents()[f] != t[f]
    ensures f0 < |t| && cur.Contents()[f0] == t[f0] ==> f0 < f
  {
    hide MergeInv;
    finishedSlot, f := finishedSlot0, f0;
    while finishedSlot >= 0 && cur.GetSlot(finishedSlot) == sux.GetSlot(finishedSlot)
      invariant f0 <= f <= |t| && finishedSlot == |t| - 1 - f
      invariant MergeInv(o, t, cur.Contents(), ops, p, f, Settled, budget)
      decreases finishedSlot + 1
    {
      FinishSlot(o, t, cur.Contents(), ops, p, f, budget);
      finishedSlot, f := finishedSlot - 1, f + 1;
    }
  }

  /** With the top right and slot `f` wrong, either that slot is renamed, or the top is
      exchanged with it, opening a cycle. */
  method FixSlot(ops0: seq<Op>, cur: FpuStackSim, sux: FpuStackSim, finishedSlot: int,
                 ghost o: seq<int>, ghost t: seq<int>, ghost p0: seq<int>, ghost f: int, ghost budget: int)
    returns (ops: seq<Op>, ghost p: seq<int>, ghost cycle: Cycle)
    requires cur.Valid() && sux.Valid() && cur != sux && cur.regs != sux.regs && sux.Contents() == t
    requires MergeInv(o, t, cur.Contents(), ops0, p0, f, Settled, budget)
    requires |cur.Contents()| == |t| && !TopMisplaced(cur.Contents(), t)
    requires 0 <= f < |t| && finishedSlot == |t| - 1 - f && cur.Contents()[f] != t[f]
    modifies cur, cur.regs
    ensures cur.Valid() && sux.Valid() && sux.Contents() == t && |cur.Contents()| == |t|
    ensures MergeInv(o, t, cur.Contents(), ops, p, f, cycle, budget)
    ensures Pops(ops) == Pops(ops0) && Adds(ops) == Adds(ops0)
    ensures cycle.Settled? ==> |Foreign(cur.Contents(), t)| < |Foreign(old(cur.Contents()), t)|
    ensures !cycle.Settled? ==> Foreign(cur.Contents(), t) == Foreign(old(cur.Contents()), t)
  {
    hide MergeInv, WfStack, Foreign, Pops, Adds;
    ghost var c := cur.Contents();
    MergeFacts(o, t, c, ops0, p0, f, Settled, budget);
    ops, p, cycle := ops0, p0, Settled;
    var reg := cur.GetSlot(finishedSlot);
    var known := sux.Contains(reg);
    var renamed := false;
    if !known {
      ghost var to;
      renamed, to := MergeRename(cur, sux, finishedSlot, finishedSlot);
      if renamed {
        StepRename(o, t, c, ops, p, f, Settled, budget, f, to);
      } else {
        RenameSucceeds(o, t, c, ops, p, f, Settled, budget, reg);
        assert false;
      }
    }
    if known || !renamed {
      StepOpenCycle(o, t, c, ops, p, f, budget);
      CountAppend(ops, Fxch(finishedSlot));
      p, cycle := SwapTop(p, finishedSlot), Started;
      ops := ops + [Fxch(finishedSlot)];
      cur.Swap(finishedSlot);
    }
  }

  /** The second phase: sorts the stack into the order of the successor, dropping what it does
      not need. */
  method MergeSort(ops0: seq<Op>, cur: FpuStackSim, sux: FpuStackSim, sizeDiff0: int,
                   ghost o: seq<int>, ghost t: seq<int>, ghost p0: seq<int>, ghost budget: int)
    returns (ops: seq<Op>)
    requires cur.Valid() && sux.Valid() && cur != sux && cur.regs != sux.regs && sux.Contents() == t
    requires MergeInv(o, t, cur.Contents(), ops0, p0, 0, Settled, budget)
    requires sizeDiff0 == |cur.Contents()| - |t|
    modifies cur, cur.regs
    ensures cur.Valid() && sux.Valid() && sux.Contents() == t && cur.Contents() == t
    ensures Carries(ops, o, t) && 2 * Xchgs(ops) <= budget
    ensures Pops(ops) == Pops(ops0) + sizeDiff0 && Adds(ops) == Adds(ops0)
  {
    hide MergeInv, WfStack, Foreign, Pops, Adds, Xchgs, Carries;
    ghost var f, cycle, p := 0, Settled, p0;
    var sizeDiff, finishedSlot := sizeDiff0, sux.stackSize - 1;
    ops := ops0;
    MergeFacts(o, t, cur.Contents(), ops, p, f, cycle, budget);
    while finishedSlot >= 0 || sizeDiff > 0
      invariant cur.Valid() && sux.Valid() && sux.Contents() == t
      invariant MergeInv(o, t, cur.Contents(), ops, p, f, cycle, budget)
      invariant 0 <= f <= |t| && finishedSlot == |t| - 1 - f
      invariant 0 <= sizeDiff == |cur.Contents()| - |t|
      invariant Pops(ops) == Pops(ops0) + sizeDiff0 - sizeDiff && Adds(ops) == Adds(ops0)
      decreases |Foreign(cur.Contents(), t)|, finishedSlot + 1, if cycle.Settled? then 1 else 0
    {
      ops, sizeDiff, p := SettleTop(ops, cur, sux, sizeDiff, finishedSlot, o, t, p, f, cycle, budget);
      finishedSlot, f := SkipFinished(cur, sux, finishedSlot, ops, o, t, p, f, budget);
      cycle := Settled;
      if finishedSlot >= 0 {
        ops, p, cycle := FixSlot(ops, cur, sux, finishedSlot, o, t, p, f, budget);
      }
    }
    MergeEnds(o, t, cur.Contents(), ops, p, cycle, budget);
  }

  /** The merge: the stack becomes the successor's, slot by slot, by code that carries every
      register both have. Exactly the surplus entries are popped, exactly the missing ones
      added, and without additions twice the exchanges is at most three times the number of
      slots that were wrong. */
  method MergeFpuStack(exact: bool, cur: FpuStackSim, sux: FpuStackSim) returns (ops: seq<Op>)
    requires cur.Valid() && sux.Valid() && cur != sux && cur.regs != sux.regs
    requires WfStack(cur.Contents()) && WfStack(sux.Contents())
    requires exact ==> |cur.Contents()| >= |sux.Contents()|
    modifies cur, cur.regs
    ensures cur.Valid() && sux.Valid() && sux.Contents() == old(sux.Contents())
    ensures cur.Contents() == sux.Contents()
    ensures Carries(ops, old(cur.Contents()), sux.Contents())
    ensures |old(cur.Contents())| >= |sux.Contents()| ==>
              && Adds(ops) == 0 && Pops(ops) == |old(cur.Contents())| - |sux.Contents()|
              && 2 * Xchgs(ops) <= 3 * Wrong(old(cur.Contents()), sux.Contents()) <= 3 * |sux.Contents()|
    ensures |old(cur.Contents())| < |sux.Contents()| ==>
              && Pops(ops) == 0 && Adds(ops) == |sux.Contents()| - |old(cur.Contents())|
              && 2 * Xchgs(ops) <= 2 * Adds(ops) + 3 * |sux.Contents()|
  {
    ghost var o, t := cur.Contents(), sux.Contents();
    ghost var p := Positions(|o|);
    var sizeDiff := cur.stackSize - sux.stackSize;
    ops := [];
    if !exact {
      ghost var j;
      ops, sizeDiff, p, j := MergeAdd(cur, sux);
    }
    assert sizeDiff >= 0;
    ops := MergeSort(ops, cur, sux, sizeDiff, o, t, p, 2 * Xchgs(ops) + 3 * Wrong(cur.Contents(), t));
  }

  // ----- cleanup -----

  function LiveOnly(s: seq<int>, live: set<int>): (r: seq<int>)
    ensures forall x :: x in r <==> x in s && x in live
    ensures WfStack(s) ==> WfStack(r)
  {
    if s == [] then [] else
      var r := LiveOnly(Pop(s), live);
      assert forall x :: x in s <==> x in Pop(s) || x == s[|s| - 1];
      if s[|s| - 1] in live then r + [s[|s| - 1]] else r
  }

  /** The top `slot` entries are live and nothing live was lost. */
  ghost predicate CleanInv(o: seq<int>, live: set<int>, c: seq<int>, ops: seq<Op>, p: seq<int>, slot: int) {
    && Tracks(o, LiveOnly(o, live), c, ops, p)
    && (forall r :: r in c ==> r in o)
    && 0 <= slot <= |c|
    && (forall k :: 0 <= k < slot ==> Slot(c, k) in live)
  }

  function CleanOps(ops: seq<Op>, slot: int): seq<Op> {
    if slot != 0 then ops + [Fxch(slot)] + [FpopRaw] else ops + [FpopRaw]
  }

  /** A dead entry is exchanged to the top and popped; the live top that took its slot ends up
      among the entries already seen. */
  lemma CleanStep(o: seq<int>, live: set<int>, c: seq<int>, ops: seq<Op>, p: seq<int>, slot: int)
    requires CleanInv(o, live, c, ops, p, slot) && slot < |c| && Slot(c, slot) !in live
    ensures |p| == |c|
    ensures CleanInv(o, live, Pop(SwapTop(c, slot)), CleanOps(ops, slot), Pop(SwapTop(p, slot)), slot)
  {
    hide Tracks, LiveOnly;
    var t := LiveOnly(o, live);
    TrackFacts(o, t, c, ops, p);
    CleanTrack(o, t, c, ops, p, slot);
    CleanSlots(o, live, c, slot);
  }

  lemma CleanTrack(o: seq<int>, t: seq<int>, c: seq<int>, ops: seq<Op>, p: seq<int>, slot: int)
    requires Tracks(o, t, c, ops, p) && 0 <= slot < |c| && Slot(c, slot) !in t
    ensures |p| == |c|
    ensures Tracks(o, t, Pop(SwapTop(c, slot)), CleanOps(ops, slot), Pop(SwapTop(p, slot)))
  {
    hide Tracks;
    TrackFacts(o, t, c, ops, p);
    if slot != 0 {
      TrackXchg(o, t, c, ops, p, slot);
      TrackPop(o, t, SwapTop(c, slot), ops + [Fxch(slot)], SwapTop(p, slot));
    } else {
      assert SwapTop(c, 0) == c && SwapTop(p, 0) == p;
      TrackPop(o, t, c, ops, p);
    }
  }

  lemma CleanSlots(o: seq<int>, live: set<int>, c: seq<int>, slot: int)
    requires WfStack(c) && 0 <= slot < |c| && forall k :: 0 <= k < slot ==> Slot(c, k) in live
    requires forall r :: r in c ==> r in o
    ensures var d := Pop(SwapTop(c, slot));
            && slot <= |d| && (forall k :: 0 <= k < slot ==> Slot(d, k) in live) && (forall r :: r in d ==> r in o)
  {
    SwapKeepsWf(c, slot);
    var d := Pop(SwapTop(c, slot));
    forall k | 0 <= k < slot
      ensures Slot(d, k) in live
    {
      assert Slot(d, k) == Slot(c, if k + 1 == slot then 0 else k + 1);
    }
  }

  lemma CleanEnds(o: seq<int>, live: set<int>, c: seq<int>, ops: seq<Op>, p: seq<int>)
    requires CleanInv(o, live, c, ops, p, |c|)
    ensures WfStack(c) && Carries(ops, o, c)
    ensures forall r :: r in c <==> r in o && r in live
  {
    forall r | r in c
      ensures r in live
    {
      assert Slot(c, OffsetFromTos(c, r)) == r;
    }
    TrackDone(o, c, ops, p);
  }

  /** Drops the dead registers and leaves exactly the live ones, values intact. */
  method MergeCleanup(cur: FpuStackSim, live: set<int>) returns (ops: seq<Op>)
    requires cur.Valid() && WfStack(cur.Contents())
    modifies cur, cur.regs
    ensures cur.Valid() && WfStack(cur.Contents())
    ensures forall r :: r in cur.Contents() <==> r in old(cur.Contents()) && r in live
    ensures Carries(ops, old(cur.Contents()), cur.Contents())
  {
    hide Carries, WfStack, Tracks;
    ghost var o := cur.Contents();
    ghost var p := Positions(|o|);
    ops := [];
    var slot := 0;
    CleanStart(o, live);
    while slot < cur.stackSize
      invariant cur.Valid() && CleanInv(o, live, cur.Contents(), ops, p, slot)
      decreases cur.stackSize - slot
    {
      ghost var c := cur.Contents();
      var reg := cur.GetSlot(slot);
      if reg !in live {
        CleanStep(o, live, c, ops, p, slot);
        p := Pop(SwapTop(p, slot));
        if slot != 0 {
          ops := ops + [Fxch(slot)];
          cur.Swap(slot);
        } else {
          assert SwapTop(c, 0) == c;
        }
        ops := ops + [FpopRaw];
        cur.PopTop();
      } else {
        slot := slot + 1;
      }
    }
    CleanEnds(o, live, cur.Contents(), ops, p);
  }

  lemma CleanStart(o: seq<int>, live: set<int>)
    requires WfStack(o)
    ensures CleanInv(o, live, o, [], Positions(|o|), 0)
  {
  }
}
