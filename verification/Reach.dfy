/** The test for whether a target can be addressed relative to the instruction pointer. */
module Reach {
  import opened Options
  import opened Encoding
  import opened Decoder
  import opened Instructions

  datatype Reloc =
    | NoReloc | InternalWord
    | VirtualCall | OptVirtualCall | StaticCall | StaticStub
    | ExternalWord | PollReturn | Poll | RuntimeCall
    | OtherReloc

  /** Relocations that are reachable without a test, as they point into the code cache. */
  predicate NearBy(r: Reloc) {
    r.InternalWord? || r.VirtualCall? || r.OptVirtualCall? || r.StaticCall? || r.StaticStub?
  }

  predicate Checked(r: Reloc) { r.ExternalWord? || r.PollReturn? || r.Poll? || r.RuntimeCall? }

  /** `low` and `high` bound the code cache and `pc` is the current address. `force` makes
      targets outside the code cache unreachable; `blob` says that the target is inside it. */
  predicate Reachable(r: Reloc, target: int, low: int, high: int, pc: int, force: bool, blob: bool) {
    if r.NoReloc? then false
    else if NearBy(r) then true
    else if !Checked(r) then false
    else if force && !blob then false
    else if !IsSimm32(target - (low + 4)) then false
    else if !IsSimm32(target - (high + 4)) then false
    else
      var disp := target - (pc + 4);
      IsSimm32(if disp < 0 then disp - 16 else disp + 16)
  }

  /** An instruction that ends at `nextIp` can address the target. */
  predicate Addresses(nextIp: int, target: int) { IsSimm32(target - nextIp) }

  ghost predicate Fits(target: int, from: int, to: int) {
    forall nextIp :: from <= nextIp <= to ==> Addresses(nextIp, target)
  }

  /** Calls and words inside the code are taken to be reachable, targets without a relocation and of any
      other kind are not. For runtime calls, external words and polling pages the three tests amount to
      this: the displacement fits wherever in the code cache the instruction ends up, and for every length it
      may have at the current address. */
  lemma ReachableExact(r: Reloc, target: int, low: int, high: int, pc: int, force: bool, blob: bool)
    requires low <= high
    ensures Reachable(r, target, low, high, pc, force, blob) <==>
      match r
      case NoReloc => false
      case OtherReloc => false
      case InternalWord => true
      case VirtualCall => true
      case OptVirtualCall => true
      case StaticCall => true
      case StaticStub => true
      case _ => (force ==> blob) && Fits(target, low + 4, high + 4) && Fits(target, pc - 12, pc + 20)
  {
    if Fits(target, low + 4, high + 4) && Fits(target, pc - 12, pc + 20) {
      assert Addresses(low + 4, target) && Addresses(high + 4, target);
      assert Addresses(pc - 12, target) && Addresses(pc + 20, target);
    }
  }

  predicate InCache(target: int, low: int, high: int) { low <= target <= high }

  /** Taking targets inside the code cache to be reachable from everywhere in it is right exactly if the
      cache is small enough. */
  lemma NearByExact(low: int, high: int)
    requires low <= high
    ensures (forall target :: InCache(target, low, high) ==> Fits(target, low + 4, high + 4))
      <==> high - low + 4 <= 0x8000_0000
  {
    if forall target :: InCache(target, low, high) ==> Fits(target, low + 4, high + 4) {
      assert InCache(low, low, high) && Addresses(high + 4, low);
    }
  }

  /** An instruction emitted here with a reachable operand addresses the target, when the
      correction passed for it is the number of bytes behind the operand. */
  lemma ReachableAddresses(r: Reloc, target: int, low: int, high: int, pc: int, force: bool, blob: bool,
                           i: Insn, rest: seq<int>)
    requires low <= high && Checked(r) && Reachable(r, target, low, high, pc, force, blob)
    requires i.operand.Mem? && i.operand.adr == Address(None, None, i.operand.adr.scale, target - pc, true)
    requires WfInsn(i) && |Bytes(i)| <= 15 && i.correction == |i.imm|
    ensures
      var at := Locate(Bytes(i) + rest, Disp32);
      && at.Some? && at.value + 4 <= |Bytes(i)|
      && pc + |Bytes(i)| + ReadInt32(Bytes(i)[at.value..at.value + 4]) == target
  {
    hide Locate, Bytes, ReadInt32, HeadBytes, WfForm;
    ReachableExact(r, target, low, high, pc, force, blob);
    assert Addresses(pc + |Bytes(i)|, target);
    assert |OperandBytes(i)| == 5;
    RipTarget(i, rest);
  }
}
