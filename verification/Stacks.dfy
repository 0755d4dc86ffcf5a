/** Register stacks as values.

A stack is a sequence with the bottom at index 0 and the top at the last index, which is
how `_regs` lays it out. `Slot` and the exchange offset count from the top, as `fxch` does.
*/
module Stacks {

  const NOF_FPU_REGS := 8

  predicate IsReg(r: int) {
    0 <= r < NOF_FPU_REGS
  }

  ghost predicate Distinct(s: seq<int>) {
    forall i, j :: 0 <= i < j < |s| ==> s[i] != s[j]
  }

  /** The stacks the allocator works with: distinct FPU register numbers. */
  ghost predicate WfStack(s: seq<int>) {
    && Distinct(s)
    && forall i :: 0 <= i < |s| ==> IsReg(s[i])
  }

  function Slot<T>(s: seq<T>, k: int): T
    requires 0 <= k < |s|
  {
    s[|s| - 1 - k]
  }

  /** Exchange of the top with the entry `k` below it. */
  function SwapTop<T>(s: seq<T>, k: int): (r: seq<T>)
    requires 0 <= k < |s|
    ensures |r| == |s|
    ensures forall i :: 0 <= i < |s| ==>
      r[i] == if i == |s| - 1 - k then s[|s| - 1] else if i == |s| - 1 then s[|s| - 1 - k] else s[i]
  {
    var top := |s| - 1;
    s[top - k := s[top]][top := s[top - k]]
  }

  function Pop<T>(s: seq<T>): (r: seq<T>)
    requires s != []
  {
    s[..|s| - 1]
  }

  /** Position of the topmost occurrence of `r`. */
  function IndexOf(s: seq<int>, r: int): (i: nat)
    requires r in s
    ensures i < |s| && s[i] == r
    ensures forall j :: i < j < |s| ==> s[j] != r
  {
    if s[|s| - 1] == r then |s| - 1 else IndexOf(s[..|s| - 1], r)
  }

  /** Distance of the topmost occurrence of `r` from the top. */
  function OffsetFromTos(s: seq<int>, r: int): (k: nat)
    requires r in s
    ensures k < |s| && Slot(s, k) == r
    ensures forall j :: 0 <= j < k ==> Slot(s, j) != r
  {
    |s| - 1 - IndexOf(s, r)
  }

  /** Every occurrence of `from` becomes `to`. */
  function RenameAll(s: seq<int>, from: int, to: int): (r: seq<int>)
    ensures |r| == |s|
    ensures forall i :: 0 <= i < |s| ==> r[i] == if s[i] == from then to else s[i]
  {
    seq(|s|, i requires 0 <= i < |s| => if s[i] == from then to else s[i])
  }

  function Elements(s: seq<int>): set<int> {
    set r | r in s
  }

  lemma {:induction false} ElementsCount(s: seq<int>)
    requires Distinct(s)
    ensures |Elements(s)| == |s|
  {
    if s != [] {
      var p := Pop(s);
      ElementsCount(p);
      assert Elements(s) == Elements(p) + {s[|s| - 1]};
    }
  }

  lemma SubsetCount(a: set<int>, b: set<int>)
    requires a <= b
    ensures |a| <= |b|
  {
    assert b == a + (b - a);
  }

  /** Every register absent from a stack leaves one of the eight physical slots free. */
  lemma FreeSlots(s: seq<int>, absent: set<int>)
    requires WfStack(s)
    requires forall r :: r in absent ==> IsReg(r) && r !in s
    ensures |s| + |absent| <= NOF_FPU_REGS
  {
    var all := {0, 1, 2, 3, 4, 5, 6, 7};
    ElementsCount(s);
    forall r | r in Elements(s) + absent
      ensures r in all
    {
      assert IsReg(r);
    }
    assert Elements(s) !! absent;
    SubsetCount(Elements(s) + absent, all);
  }

  lemma TwoFreeSlots(s: seq<int>, r: int, t: int)
    requires WfStack(s) && IsReg(r) && IsReg(t) && r != t && r !in s && t !in s
    ensures |s| <= 6
  {
    FreeSlots(s, {r, t});
  }

  /** Two stacks of distinct registers: if all of `a` is on `b`, `b` is at least as deep, and
      at equal depth the converse holds too. */
  lemma Pigeonhole(a: seq<int>, b: seq<int>)
    requires Distinct(a) && Distinct(b)
    requires forall r :: r in a ==> r in b
    ensures |a| <= |b|
    ensures |a| == |b| ==> forall r :: r in b ==> r in a
  {
    ElementsCount(a);
    ElementsCount(b);
    assert Elements(a) <= Elements(b);
    assert Elements(b) == Elements(a) + (Elements(b) - Elements(a));
    if |a| == |b| {
      assert Elements(b) - Elements(a) == {};
      forall r | r in b
        ensures r in a
      {
        assert r in Elements(b);
        assert r in Elements(a);
      }
    }
  }

  lemma SwapKeepsWf(s: seq<int>, k: int)
    requires 0 <= k < |s|
    requires WfStack(s)
    ensures WfStack(SwapTop(s, k))
    ensures forall r :: r in SwapTop(s, k) <==> r in s
  {
    var t := SwapTop(s, k);
    forall r | r in s
      ensures r in t
    {
      var i :| 0 <= i < |s| && s[i] == r;
      assert t[if i == |s| - 1 then |s| - 1 - k else if i == |s| - 1 - k then |s| - 1 else i] == r;
    }
  }
}
