/** The simulator of the FPU stack: an eight-entry array and a size, updated in place. */
module StackSim {
  import opened Stacks

  const EMPTY := -1

  /** A recorded stack: the size followed by the eight entries. */
  ghost predicate IsState(state: seq<int>) {
    && |state| == 1 + NOF_FPU_REGS
    && 0 <= state[0] <= NOF_FPU_REGS
    && (forall i :: state[0] < i < |state| ==> state[i] == EMPTY)
  }

  function StateStack(state: seq<int>): seq<int>
    requires IsState(state)
  {
    state[1..1 + state[0]]
  }

  class FpuStackSim {
    const regs: array<int>
    var stackSize: int

    /** Everything above the top is empty. */
    ghost predicate Valid()
      reads this, regs
    {
      && regs.Length == NOF_FPU_REGS
      && 0 <= stackSize <= NOF_FPU_REGS
      && forall i :: stackSize <= i < NOF_FPU_REGS ==> regs[i] == EMPTY
    }

    ghost function Contents(): (s: seq<int>)
      requires Valid()
      reads this, regs
    {
      regs[..stackSize]
    }

    constructor ()
      ensures Valid() && Contents() == [] && fresh(regs)
    {
      regs := new int[NOF_FPU_REGS](_ => EMPTY);
      stackSize := 0;
    }

    method PopTop()
      requires Valid() && Contents() != []
      modifies this, regs
      ensures Valid() && Contents() == Pop(old(Contents()))
    {
      regs[stackSize - 1] := EMPTY;
      stackSize := stackSize - 1;
    }

    method Push(rnr: int)
      requires Valid() && |Contents()| < NOF_FPU_REGS
      modifies this, regs
      ensures Valid() && Contents() == old(Contents()) + [rnr]
    {
      regs[stackSize] := rnr;
      stackSize := stackSize + 1;
    }

    method Swap(offset: int)
      requires Valid() && 0 <= offset < |Contents()|
      modifies regs
      ensures Valid() && Contents() == SwapTop(old(Contents()), offset)
    {
      var tos := stackSize - 1;
      var t := regs[tos - offset];
      regs[tos - offset] := regs[tos];
      regs[tos] := t;
    }

    method TosOffset(rnr: int) returns (k: int)
      requires Valid() && rnr in Contents()
      ensures k == OffsetFromTos(Contents(), rnr)
    {
      var i := stackSize - 1;
      while regs[i] != rnr
        invariant 0 <= i < stackSize
        invariant forall j :: i < j < stackSize ==> Contents()[j] != rnr
        invariant rnr in Contents()
        decreases i
      {
        assert exists j :: 0 <= j < stackSize && Contents()[j] == rnr;
        i := i - 1;
      }
      assert Contents()[i] == rnr;
      k := stackSize - 1 - i;
    }

    function GetSlot(k: int): (rnr: int)
      requires Valid() && 0 <= k < |Contents()|
      reads this, regs
      ensures rnr == Slot(Contents(), k)
    {
      regs[stackSize - 1 - k]
    }

    method SetSlot(k: int, rnr: int)
      requires Valid() && 0 <= k < |Contents()|
      modifies regs
      ensures Valid() && Contents() == old(Contents())[|old(Contents())| - 1 - k := rnr]
    {
      regs[stackSize - 1 - k] := rnr;
    }

    method Rename(oldRnr: int, newRnr: int)
      requires Valid() && oldRnr in Contents()
      requires newRnr == oldRnr || newRnr !in Contents()
      modifies regs
      ensures Valid() && Contents() == RenameAll(old(Contents()), oldRnr, newRnr)
    {
      if oldRnr == newRnr {
        assert Contents() == RenameAll(Contents(), oldRnr, newRnr);
        return;
      }
      var i := 0;
      while i < stackSize
        invariant 0 <= i <= stackSize
        invariant Valid() && |Contents()| == |old(Contents())|
        invariant forall j :: 0 <= j < i ==> Contents()[j] == RenameAll(old(Contents()), oldRnr, newRnr)[j]
        invariant forall j :: i <= j < stackSize ==> Contents()[j] == old(Contents())[j]
      {
        assert Contents()[i] != newRnr;
        if regs[i] == oldRnr {
          regs[i] := newRnr;
        }
        i := i + 1;
      }
    }

    method Contains(rnr: int) returns (found: bool)
      requires Valid()
      ensures found <==> rnr in Contents()
    {
      var i := 0;
      while i < stackSize
        invariant 0 <= i <= stackSize
        invariant forall j :: 0 <= j < i ==> Contents()[j] != rnr
      {
        if regs[i] == rnr {
          assert Contents()[i] == rnr;
          return true;
        }
        i := i + 1;
      }
      return false;
    }

    method Clear()
      requires Valid()
      modifies this, regs
      ensures Valid() && Contents() == []
    {
      var i := stackSize - 1;
      while i >= 0
        invariant -1 <= i < stackSize == old(stackSize)
        invariant forall j :: i < j < NOF_FPU_REGS ==> regs[j] == EMPTY
      {
        regs[i] := EMPTY;
        i := i - 1;
      }
      stackSize := 0;
    }

    method WriteState() returns (state: seq<int>)
      requires Valid()
      ensures IsState(state) && StateStack(state) == Contents()
    {
      state := [stackSize];
      for i := 0 to NOF_FPU_REGS
        invariant |state| == 1 + i && state[0] == stackSize
        invariant forall j :: 1 <= j <= i ==> state[j] == regs[j - 1]
      {
        state := state + [regs[i]];
      }
    }

    method ReadState(state: seq<int>)
      requires Valid() && IsState(state)
      modifies this, regs
      ensures Valid() && Contents() == StateStack(state)
    {
      stackSize := state[0];
      for i := 0 to NOF_FPU_REGS
        invariant stackSize == state[0]
        invariant forall j :: 0 <= j < i ==> regs[j] == state[1 + j]
      {
        regs[i] := state[1 + i];
      }
    }
  }

  /** A state written and read back describes the same stack, and two states describe the same
      stack only if they are entry for entry equal. */
  lemma StateDetermined(s: seq<int>, t: seq<int>)
    requires IsState(s) && IsState(t) && StateStack(s) == StateStack(t)
    ensures s == t
  {
    assert |StateStack(s)| == s[0] && |StateStack(t)| == t[0];
    forall i | 0 <= i < |s|
      ensures s[i] == t[i]
    {
      if 1 <= i <= s[0] {
        assert s[i] == StateStack(s)[i - 1] && t[i] == StateStack(t)[i - 1];
      } else if s[0] < i {
        assert s[i] == EMPTY && t[i] == EMPTY;
      }
    }
  }
}
