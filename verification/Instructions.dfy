/** Whole instructions as the assembler lays them out, and what the decoder makes of them. */
module Instructions {
  import opened Options
  import opened Encoding
  import opened Decoder

  // ----- what the assembler writes -----

  /** Segment overrides, the address size prefix and lock. */
  predicate LegacyPrefix(b: int) {
    b == 0x26 || b == 0x2E || b == 0x36 || b == 0x3E || b == 0x64 || b == 0x65 || b == 0x67 || b == 0xF0
  }

  predicate RexPrefix(b: int) { b / 16 == 4 }

  /** One-byte opcodes with an operand, by what they do. */
  predicate OneByte(op: int) {
    || (0 <= op < 0x40 && op % 8 < 4)                     // add, or, adc, sbb, and, sub, xor, cmp
    || op in {0x80, 0x81, 0x83}                           // the same with an immediate
    || op in {0x69, 0x6B, 0x85, 0xF7, 0xFF}               // imul, test, mul, inc, dec, call, jmp, push
    || op in {0x87, 0x88, 0x89, 0x8A, 0x8B, 0x8D, 0x8F}   // xchg, mov, lea, pop
    || op in {0xC6, 0xC7}                                 // mov with an immediate
    || op in {0xC1, 0xD1, 0xD3}                           // shifts
    || op in {0xD8, 0xD9, 0xDB, 0xDC, 0xDD, 0xDE, 0xDF}   // x87
  }

  /** Opcodes with an operand behind 0x0F. */
  predicate TwoByte(op: int) {
    || 0x40 <= op < 0x50 || 0x90 <= op < 0xA0             // cmov, setcc
    || op in {0xB6, 0xB7, 0xBE, 0xBF, 0xAF}               // movzx, movsx, imul
    || op in {0xAC, 0xAD, 0xB0, 0xB1, 0xC1, 0xC7}         // shrd, cmpxchg, xadd, cmpxchg8
    || op in {0x12, 0x28, 0x6E, 0x7E, 0x70, 0x73}         // movlp, movap, movd, pshufd, psrldq
    || op in {0x2E, 0x2F, 0x54, 0x55, 0x56, 0x57}         // ucomis, comis, andp, andnp, orp, xorp
    || op in {0xAE, 0xC4, 0xC5}                           // ldmxcsr and fences, pinsrw, pextrw
  }

  /** The decoder has a case for just these bytes. */
  lemma TablesAgree(b: int)
    ensures IsSkipped(b) <==> LegacyPrefix(b)
    ensures IsRex(b) <==> RexPrefix(b)
    ensures TailOne(b).Some? <==> OneByte(b)
    ensures TailTwo(b).Some? <==> TwoByte(b)
  {
  }

  /** How the opcode of an instruction that the decoder follows is written. `Sized` and the forms with
      `size` carry the prefix 0x66. */
  datatype Form =
    | Basic(op: int)
    | Mapped(size: bool, op: int)
    | Mapped3(size: bool, map3: int, op: int)
    | Sized(op: int)
    | Fwait
    | Rep(rep: int, op: int)
    | Vex2(b1: int, op: int)
    | Vex3(b1: int, b2: int, op: int)
    | Push
    | MoveImm(op: int)
    | Call(op: int)
    | Jcc(op: int)

  datatype Operand = Nothing | Direct(modrm: int) | Mem(reg: int, adr: Address)

  /** `correction` is the number of bytes behind the operand, as the emitter passed it on. */
  datatype Insn = Insn(pre: seq<int>, rex: Option<int>, form: Form, operand: Operand, imm: seq<int>, correction: nat)

  predicate IsVex(f: Form) { f.Vex2? || f.Vex3? }
  predicate IsPlain(f: Form) { f.Push? || f.MoveImm? || f.Call? || f.Jcc? }

  predicate WfForm(f: Form) {
    match f
    case Basic(op) => OneByte(op)
    case Mapped(_, op) => TwoByte(op)
    case Mapped3(_, m, _) => m in {0x38, 0x3A}
    case Sized(op) => op in {0x89, 0x8B, 0xC7}
    case Rep(rep, op) => rep in {0xF2, 0xF3} && op !in {0x38, 0x3A}
    case Vex2(_, op) => op != 0x77
    case Vex3(b1, _, op) => b1 % 32 in {1, 2, 3} && (b1 % 32 == 1 ==> op != 0x77)
    case MoveImm(op) => 0xB8 <= op < 0xC0
    case Call(op) => op in {0xE8, 0xE9}
    case Jcc(op) => 0x80 <= op < 0x90
    case _ => true
  }

  predicate WfOperand(o: Operand) {
    && (o.Direct? ==> 0xC0 <= o.modrm < 0x100)
    && (o.Mem? ==> IsReg(o.reg) && Legal(o.adr))
  }

  predicate WfInsn(i: Insn) {
    && (forall k | 0 <= k < |i.pre| :: LegacyPrefix(i.pre[k]))
    && (i.rex.Some? ==> RexPrefix(i.rex.value))
    && WfForm(i.form)
    && (IsVex(i.form) ==> i.pre == [] && i.rex.None?)
    && (IsPlain(i.form) <==> i.operand.Nothing?)
    && WfOperand(i.operand)
  }

  function RexBytes(rex: Option<int>): seq<int> {
    if rex.Some? then [rex.value] else []
  }

  /** A prefix that belongs to the opcode and stands before the REX prefix. */
  function Mandatory(f: Form): seq<int> {
    match f
    case Mapped(size, _) => if size then [0x66] else []
    case Mapped3(size, _, _) => if size then [0x66] else []
    case Sized(_) => [0x66]
    case Rep(rep, _) => [rep]
    case _ => []
  }

  function OpcodeBytes(f: Form): (b: seq<int>)
    ensures |b| >= 1
  {
    match f
    case Basic(op) => [op]
    case Mapped(_, op) => [0x0F, op]
    case Mapped3(_, m, op) => [0x0F, m, op]
    case Sized(op) => [op]
    case Fwait => [0x9B, 0xD9]
    case Rep(_, op) => [0x0F, op]
    case Vex2(b1, op) => [0xC5, b1, op]
    case Vex3(b1, b2, op) => [0xC4, b1, b2, op]
    case Push => [0x68]
    case MoveImm(op) => [op]
    case Call(op) => [op]
    case Jcc(op) => [0x0F, op]
  }

  /** Prefixes and opcode. */
  function HeadBytes(i: Insn): (h: seq<int>)
    ensures |h| >= 1
  {
    i.pre + Mandatory(i.form) + RexBytes(i.rex) + OpcodeBytes(i.form)
  }

  function OperandBytes(i: Insn): seq<int>
    requires WfInsn(i)
  {
    match i.operand
    case Nothing => []
    case Direct(m) => [m]
    case Mem(reg, adr) => OperandCode(reg, adr, |HeadBytes(i)|, i.correction)
  }

  function Bytes(i: Insn): (b: seq<int>)
    requires WfInsn(i)
    ensures |b| == |HeadBytes(i)| + |OperandBytes(i)| + |i.imm|
  {
    HeadBytes(i) + OperandBytes(i) + i.imm
  }

  // ----- immediate sizes -----

  /** What the decoder takes to be the size of the immediate behind an operand. */
  function OperandTail(f: Form): nat
    requires WfForm(f)
  {
    match f
    case Basic(op) => TailOne(op).value
    case Mapped(_, op) => TailTwo(op).value
    case Mapped3(_, m, _) => if m == 0x3A then 1 else 0
    case Sized(op) => if op == 0xC7 then 2 else 0
    case Vex2(_, op) => TailVex(op)
    case Vex3(_, _, op) => TailVex(op)
    case _ => 0
  }

  function DecoderTail(i: Insn): nat
    requires WfInsn(i)
  {
    if !IsPlain(i.form) then OperandTail(i.form)
    else if i.form.MoveImm? && i.rex.Some? && IsRexW(i.rex.value) then 8
    else 4
  }

  function RegField(o: Operand): int {
    match o
    case Nothing => 0
    case Direct(m) => m / 8 % 8
    case Mem(reg, _) => Encode(reg)
  }

  /** The size of the immediate by the opcode maps in appendix A of the Intel SDM Volume 2D.
      In `VexImm`, map 1 is 0F, map 2 is 0F38 and map 3 is 0F3A. */
  function VexImm(m: int, op: int): nat {
    if m == 3 then 1 else if m == 1 && op in {0x70, 0x71, 0x72, 0x73, 0xC2, 0xC4, 0xC5, 0xC6} then 1 else 0
  }

  function IntelImm(i: Insn): nat {
    match i.form
    case Basic(op) =>
      if op in {0x69, 0x81, 0xC7} then 4
      else if op in {0x6B, 0x80, 0x83, 0xC1, 0xC6} then 1
      else if op == 0xF7 && RegField(i.operand) < 2 then 4
      else 0
    case Mapped(_, op) => if op in {0x70, 0x73, 0xAC, 0xC4, 0xC5} then 1 else 0
    case Mapped3(_, m, _) => if m == 0x3A then 1 else 0
    case Sized(op) => if op == 0xC7 then 2 else 0
    case Fwait => 0
    case Rep(_, op) => if op in {0x70, 0xC2} then 1 else 0
    case Vex2(_, op) => VexImm(1, op)
    case Vex3(b1, _, op) => VexImm(b1 % 32, op)
    case Push => 4
    case MoveImm(_) => if i.rex.Some? && i.rex.value >= 0x48 then 8 else 4
    case Call(_) => 4
    case Jcc(_) => 4
  }

  /** The instructions the decoder measures wrongly: test with an immediate, string-prefixed SSE
      instructions with an immediate, and VEX instructions other than the three it knows. */
  predicate Mismeasured(i: Insn) {
    match i.form
    case Basic(op) => op == 0xF7 && RegField(i.operand) < 2
    case Rep(_, op) => op in {0x70, 0xC2}
    case Vex2(_, op) => op in {0x61, 0x71, 0x72, 0xC2, 0xC4, 0xC5, 0xC6}
    case Vex3(b1, _, op) =>
      if b1 % 32 == 1 then op in {0x61, 0x71, 0x72, 0xC2, 0xC4, 0xC5, 0xC6}
      else if b1 % 32 == 2 then op in {0x61, 0x70, 0x73}
      else op !in {0x61, 0x70, 0x73}
    case _ => false
  }

  lemma TailAgrees(i: Insn)
    requires WfInsn(i)
    ensures DecoderTail(i) == IntelImm(i) <==> !Mismeasured(i)
  {
  }

  // ----- the opcode -----

  lemma {:induction false} SkipRun(b: seq<int>, n: nat)
    requires n <= |b| && forall k | 0 <= k < n :: IsSkipped(b[k])
    ensures DecodeOpcode(b, n, false) == DecodeOpcode(b, 0, false)
  {
    hide IsSkipped, IsRex, DecodeBare;
    if n > 0 {
      SkipRun(b, n - 1);
      assert IsSkipped(b[n - 1]);
    }
  }

  /** Prefixes lead to the bare opcode. */
  lemma SkipToBare(pre: seq<int>, rex: Option<int>, b: seq<int>, rest: seq<int>)
    requires forall k | 0 <= k < |pre| :: IsSkipped(pre[k])
    requires rex.Some? ==> IsRex(rex.value)
    requires b == pre + RexBytes(rex) + rest && rest != []
    requires !IsSkipped(rest[0]) && !IsRex(rest[0])
    ensures
      var ip := |pre| + |RexBytes(rex)|;
      DecodeOpcode(b, 0, false) == DecodeBare(b, ip, rex.Some? && IsRexW(rex.value))
  {
    hide DecodeBare;
    forall k | 0 <= k < |pre| ensures IsSkipped(b[k]) { assert b[k] == pre[k]; }
    SkipRun(b, |pre|);
    assert b[|pre| + |RexBytes(rex)|] == rest[0];
  }

  lemma SizedRex(b: seq<int>, ip: nat, rex: Option<int>)
    requires ip + |RexBytes(rex)| < |b|
    requires rex.Some? ==> b[ip] == rex.value && IsRex(rex.value)
    ensures DecodeSized(b, ip) == DecodeSized(b, ip + |RexBytes(rex)|)
  {
  }

  function HeadOf(i: Insn): Head
    requires WfInsn(i)
  {
    if IsPlain(i.form) then AtImmediate(|HeadBytes(i)|, DecoderTail(i)) else AtOperand(|HeadBytes(i)|, DecoderTail(i))
  }

  /** Without a mandatory prefix, the REX prefix stands directly before the opcode. */
  lemma HeadDecodesPlain(i: Insn, rest: seq<int>)
    requires WfInsn(i) && Mandatory(i.form) == [] && !IsVex(i.form)
    ensures DecodeOpcode(HeadBytes(i) + rest, 0, false) == HeadOf(i)
  {
    hide OpcodeBytes, DecodeBare, DecodeOpcode, OperandTail;
    var b, n, tail := HeadBytes(i) + rest, |i.pre| + |RexBytes(i.rex)|, OpcodeBytes(i.form) + rest;
    assert b == i.pre + RexBytes(i.rex) + tail && b[n..] == tail;
    BareDecodes(i.form, b, n, i.rex.Some? && IsRexW(i.rex.value));
    SkipToBare(i.pre, i.rex, b, tail);
  }

  lemma BytesAt(b: seq<int>, n: nat, part: seq<int>)
    requires n <= |b| && part <= b[n..]
    ensures n + |part| <= |b| && forall k | 0 <= k < |part| :: b[n + k] == part[k]
  {
    forall k | 0 <= k < |part| ensures b[n + k] == part[k] {
      assert b[n..][k] == b[n + k];
    }
  }

  lemma BareDecodes(f: Form, b: seq<int>, n: nat, wide: bool)
    requires WfForm(f) && Mandatory(f) == [] && !IsVex(f)
    requires n <= |b| && OpcodeBytes(f) <= b[n..]
    ensures n < |b| && !IsSkipped(b[n]) && !IsRex(b[n])
    ensures
      var end := n + |OpcodeBytes(f)|;
      DecodeBare(b, n, wide) ==
        (if IsPlain(f) then AtImmediate(end, if f.MoveImm? && wide then 8 else 4) else AtOperand(end, OperandTail(f)))
  {
    BytesAt(b, n, OpcodeBytes(f));
  }

  /** With a mandatory prefix, the REX prefix stands behind it. */
  lemma HeadDecodesPrefixed(i: Insn, rest: seq<int>)
    requires WfInsn(i) && Mandatory(i.form) != []
    ensures DecodeOpcode(HeadBytes(i) + rest, 0, false) == HeadOf(i)
  {
    hide OpcodeBytes, DecodeBare, DecodeOpcode, OperandTail;
    var b, n := HeadBytes(i) + rest, |i.pre|;
    var tail := Mandatory(i.form) + RexBytes(i.rex) + OpcodeBytes(i.form) + rest;
    assert b == i.pre + RexBytes(None) + tail;
    SkipToBare(i.pre, None, b, tail);
    assert b[n + 1 + |RexBytes(i.rex)|..] == OpcodeBytes(i.form) + rest;
    PrefixedDecodes(i.form, i.rex, b, n);
  }

  lemma PrefixedDecodes(f: Form, rex: Option<int>, b: seq<int>, n: nat)
    requires WfForm(f) && Mandatory(f) != [] && (rex.Some? ==> IsRex(rex.value))
    requires n + 1 + |RexBytes(rex)| <= |b|
    requires b[n] == Mandatory(f)[0] && (rex.Some? ==> b[n + 1] == rex.value)
    requires OpcodeBytes(f) <= b[n + 1 + |RexBytes(rex)|..]
    ensures DecodeBare(b, n, false) == AtOperand(n + 1 + |RexBytes(rex)| + |OpcodeBytes(f)|, OperandTail(f))
  {
    var m := n + 1 + |RexBytes(rex)|;
    BytesAt(b, m, OpcodeBytes(f));
    if !f.Rep? {
      SizedRex(b, n + 1, rex);
    }
  }

  lemma HeadDecodes(i: Insn, rest: seq<int>)
    requires WfInsn(i)
    ensures DecodeOpcode(HeadBytes(i) + rest, 0, false) == HeadOf(i)
  {
    if IsVex(i.form) {
      var b := HeadBytes(i) + rest;
      assert DecodeOpcode(b, 0, false) == DecodeBare(b, 0, false) == DecodeVex(b, 1);
    } else if Mandatory(i.form) == [] {
      HeadDecodesPlain(i, rest);
    } else {
      HeadDecodesPrefixed(i, rest);
    }
  }

  // ----- the operand -----

  /** A relocated displacement, one that does not fit a byte, and one without a base have 32 bits. */
  predicate HasDisp32(adr: Address) { adr.base.None? || adr.reloc || !Is8Bit(adr.disp) }

  function DispField(adr: Address, at: nat, after: nat): int {
    if IsRip(adr) then RipDisp(adr, at, after) else adr.disp
  }

  lemma Fields(a: int, b: int, c: int)
    requires 0 <= a < 4 && 0 <= b < 8 && 0 <= c < 8
    ensures ModField(ModRm(a, b, c)) == a && RmField(ModRm(a, b, c)) == c
  {
    FieldsRoundTrip(a, b, c);
  }

  /** What the bytes of an operand say about its length and its displacement. */
  lemma EmitShape(reg: int, adr: Address, at: nat, after: nat)
    requires IsReg(reg) && Legal(adr)
    ensures
      var e := OperandCode(reg, adr, at, after);
      var mod := ModField(e[0]);
      && mod < 3
      && (RmField(e[0]) == 4 ==> |e| >= 2)
      && var d := if RmField(e[0]) == 4 then 2 else 1;
      && var base := if RmField(e[0]) == 4 then RmField(e[1]) else RmField(e[0]);
      && HasDisp32(adr) == (mod == 2 || (mod == 0 && base == 5))
      && |e| == d + (if HasDisp32(adr) then 4 else if mod == 1 then 1 else 0)
      && (HasDisp32(adr) ==> e[|e| - 4..] == Int32(DispField(adr, at, after)))
  {
    hide ModRm, Int32, RipDisp, ModField, RmField;
    var r := Encode(reg);
    if adr.base.None? {
      Fields(0, r, if IsRip(adr) then 5 else 4);
      StackSib();
      if adr.index.Some? {
        Fields(adr.scale, Encode(adr.index.value), 5);
      }
    } else {
      var base := Encode(adr.base.value);
      var mod := if HasDisp32(adr) then 2 else if adr.disp == 0 && (base != 5) then 0 else 1;
      StackSib();
      if adr.index.Some? {
        Fields(mod, r, 4);
        Fields(adr.scale, Encode(adr.index.value), base);
      } else {
        Fields(mod, r, base);
      }
    }
  }

  lemma StackSib()
    ensures RmField(0x24) == 4 && RmField(0x25) == 5
  {
  }

  lemma OperandDecodes(reg: int, adr: Address, at: nat, after: nat, b: seq<int>, ip: nat, which: Which)
    requires IsReg(reg) && Legal(adr)
    requires ip <= |b| && OperandCode(reg, adr, at, after) <= b[ip..]
    ensures
      var end := ip + |OperandCode(reg, adr, at, after)|;
      DecodeOperand(b, ip, which) ==
        (if which == Disp32 && HasDisp32(adr) then Some((end - 4, true)) else Some((end, false)))
  {
    hide OperandCode, HasDisp32, Int32, ModField, RmField;
    var e := OperandCode(reg, adr, at, after);
    EmitShape(reg, adr, at, after);
    BytesAt(b, ip, e);
    assert b[ip + 0] == e[0];
    if RmField(e[0]) == 4 {
      assert b[ip + 1] == e[1];
    }
  }

  // ----- whole instructions -----

  /** Where the decoder ends up, for each thing it may be asked. */
  function Located(i: Insn, which: Which): nat
    requires WfInsn(i)
  {
    var end := |HeadBytes(i)| + |OperandBytes(i)|;
    match which
    case EndPc => end + DecoderTail(i)
    case Immediate => end
    case Disp32 => if i.operand.Mem? && HasDisp32(i.operand.adr) then end - 4 else end
  }

  lemma AfterHead(i: Insn, rest: seq<int>)
    requires WfInsn(i)
    ensures Bytes(i) + rest == HeadBytes(i) + (OperandBytes(i) + i.imm + rest)
    ensures (Bytes(i) + rest)[|HeadBytes(i)|..] == OperandBytes(i) + (i.imm + rest)
  {
    hide HeadBytes, OperandBytes, WfInsn;
  }

  lemma DirectDecodes(modrm: int, b: seq<int>, ip: nat, which: Which)
    requires 0xC0 <= modrm < 0x100 && ip < |b| && b[ip] == modrm
    ensures DecodeOperand(b, ip, which) == Some((ip + 1, false))
  {
  }

  lemma LocateInsn(i: Insn, rest: seq<int>, which: Which)
    requires WfInsn(i)
    ensures Locate(Bytes(i) + rest, which) == Some(Located(i, which))
  {
    hide HeadBytes, DecodeOpcode, DecodeOperand, DecoderTail, OperandCode, HasDisp32, WfForm, IsVex, IsPlain, Bytes;
    var b, h := Bytes(i) + rest, HeadBytes(i);
    AfterHead(i, rest);
    HeadDecodes(i, OperandBytes(i) + i.imm + rest);
    match i.operand {
      case Nothing =>
      case Direct(m) =>
        assert b[|h|] == m;
        DirectDecodes(m, b, |h|, which);
      case Mem(reg, adr) => OperandDecodes(reg, adr, |h|, i.correction, b, |h|, which);
    }
  }

  /** The decoder finds the end of an instruction exactly when it knows the size of the immediate;
      by the opcode maps that is whenever the instruction is not a mismeasured one. */
  lemma EndExactFollowed(i: Insn, rest: seq<int>)
    requires WfInsn(i) && |i.imm| == IntelImm(i)
    ensures Locate(Bytes(i) + rest, EndPc) == Some(|Bytes(i)|) <==> !Mismeasured(i)
  {
    hide *;
    LocateInsn(i, rest, EndPc);
    TailAgrees(i);
    assert Located(i, EndPc) == |HeadBytes(i)| + |OperandBytes(i)| + DecoderTail(i) by { LocatedEnd(i); }
  }

  lemma LocatedEnd(i: Insn)
    requires WfInsn(i)
    ensures Located(i, EndPc) == |HeadBytes(i)| + |OperandBytes(i)| + DecoderTail(i)
  {
  }

  /** A 32-bit displacement is found where it was written, immediates behind everything else, and
      both hold what was written, whatever the decoder thinks of the size of the immediate. */
  lemma OperandsExact(i: Insn, rest: seq<int>)
    requires WfInsn(i)
    ensures
      var at := Locate(Bytes(i) + rest, Immediate);
      at.Some? && at.value <= |Bytes(i)| && Bytes(i)[at.value..] == i.imm
    ensures i.operand.Mem? && HasDisp32(i.operand.adr) ==>
      var at := Locate(Bytes(i) + rest, Disp32);
      && at.Some? && at.value + 4 + |i.imm| == |Bytes(i)|
      && Bytes(i)[at.value..at.value + 4] == Int32(DispField(i.operand.adr, |HeadBytes(i)|, i.correction))
  {
    hide Locate, HeadBytes, OperandCode, DispField, Int32, WfForm, HasDisp32;
    LocateInsn(i, rest, Immediate);
    if i.operand.Mem? && HasDisp32(i.operand.adr) {
      LocateInsn(i, rest, Disp32);
      var o, n := OperandBytes(i), |HeadBytes(i)| + |OperandBytes(i)|;
      EmitShape(i.operand.reg, i.operand.adr, |HeadBytes(i)|, i.correction);
      assert Bytes(i)[n - 4..n] == o[|o| - 4..];
    }
  }

  /** The RIP-relative displacement the decoder finds, added to the end of the instruction, gives
      back the target, which the address holds relative to the start of the instruction, just when the
      correction was the number of bytes behind the operand. */
  lemma RipTarget(i: Insn, rest: seq<int>)
    requires WfInsn(i) && i.operand.Mem? && IsRip(i.operand.adr)
    requires IsSimm32(RipDisp(i.operand.adr, |HeadBytes(i)|, i.correction))
    ensures
      var at := Locate(Bytes(i) + rest, Disp32);
      && at.Some? && at.value + 4 <= |Bytes(i)|
      && (|Bytes(i)| + ReadInt32(Bytes(i)[at.value..at.value + 4]) == i.operand.adr.disp <==> i.correction == |i.imm|)
  {
    hide Locate, HeadBytes, Int32, ReadInt32, WfForm;
    var adr, n := i.operand.adr, |HeadBytes(i)|;
    OperandsExact(i, rest);
    Int32RoundTrip(RipDisp(adr, n, i.correction));
    assert |OperandBytes(i)| == 5;
  }

  // ----- arithmetic with an immediate -----

  /** An arithmetic instruction on memory: the opcode extension selects the operation. An immediate
      that fits a byte is emitted as one, and sign-extended by the processor. */
  function ArithInsn(ext: int, adr: Address, imm32: int, wide: bool): Insn {
    var rex := if wide then Some(PrefixQ(adr, 0)) else Prefix(adr, 0, false);
    if Is8Bit(imm32) then Insn([], rex, Basic(0x83), Mem(ext, adr), [imm32 % 256], 1)
    else Insn([], rex, Basic(0x81), Mem(ext, adr), Int32(imm32), 4)
  }

  function ArithPrefix(adr: Address, wide: bool): seq<int> {
    if wide then [PrefixQ(adr, 0)] else PrefixBytes(Prefix(adr, 0, false))
  }

  function ArithOpcode(imm32: int): int { if Is8Bit(imm32) then 0x83 else 0x81 }

  function ArithImm(imm32: int): seq<int> { if Is8Bit(imm32) then [imm32 % 256] else Int32(imm32) }

  method EmitArithOperand(buf: CodeBuffer, ext: int, adr: Address, imm32: int)
    requires buf.Valid() && 0 <= ext < 8 && Legal(adr) && IsSimm32(imm32)
    modifies buf`code
    ensures buf.Valid()
    ensures buf.code == old(buf.code) + [ArithOpcode(imm32)]
                      + OperandCode(ext, adr, |old(buf.code)| + 1 - buf.instMark, |ArithImm(imm32)|)
                      + ArithImm(imm32)
  {
    hide OperandCode, Legal, Int32;
    if Is8Bit(imm32) {
      buf.code := buf.code + [0x83];
      buf.EmitOperand(ext, adr, 1);
      buf.code := buf.code + [imm32 % 256];
    } else {
      buf.code := buf.code + [0x81];
      buf.EmitOperand(ext, adr, 4);
      buf.EmitInt32(imm32);
    }
  }

  method EmitArith(buf: CodeBuffer, ext: int, adr: Address, imm32: int, wide: bool)
    requires buf.Valid() && 0 <= ext < 8 && Legal(adr) && IsSimm32(imm32)
    modifies buf
    ensures buf.Valid() && WfInsn(ArithInsn(ext, adr, imm32, wide))
    ensures buf.code == old(buf.code) + Bytes(ArithInsn(ext, adr, imm32, wide))
  {
    hide OperandCode, Legal, WfInsn, Bytes, ArithInsn, ArithImm, Prefix, PrefixQ;
    ghost var pre := ArithPrefix(adr, wide);
    ArithInsnBytes(ext, adr, imm32, wide);
    Joined(buf.code, pre, [ArithOpcode(imm32)], OperandCode(ext, adr, |pre| + 1, |ArithImm(imm32)|), ArithImm(imm32));
    buf.instMark := |buf.code|;
    if wide {
      buf.code := buf.code + [PrefixQ(adr, 0)];
    } else {
      buf.EmitPrefix(adr, 0, false);
    }
    EmitArithOperand(buf, ext, adr, imm32);
  }

  lemma Joined(a: seq<int>, b: seq<int>, c: seq<int>, d: seq<int>, e: seq<int>)
    ensures a + b + c + d + e == a + (b + c + d + e)
  {
  }

  lemma ArithInsnBytes(ext: int, adr: Address, imm32: int, wide: bool)
    requires 0 <= ext < 8 && Legal(adr)
    ensures
      var i, pre := ArithInsn(ext, adr, imm32, wide), ArithPrefix(adr, wide);
      && WfInsn(i)
      && Bytes(i) == pre + [ArithOpcode(imm32)] + OperandCode(ext, adr, |pre| + 1, |ArithImm(imm32)|) + ArithImm(imm32)
  {
    hide Int32, OperandCode, ArithPrefix, Prefix, PrefixQ, Legal, WfInsn, HeadBytes;
    ArithInsnWf(ext, adr, imm32, wide);
    ArithHead(ext, adr, imm32, wide);
  }

  lemma ArithHead(ext: int, adr: Address, imm32: int, wide: bool)
    requires WfInsn(ArithInsn(ext, adr, imm32, wide))
    ensures HeadBytes(ArithInsn(ext, adr, imm32, wide)) == ArithPrefix(adr, wide) + [ArithOpcode(imm32)]
  {
    hide Int32, Prefix, PrefixQ, WfInsn;
  }

  lemma ArithInsnWf(ext: int, adr: Address, imm32: int, wide: bool)
    requires 0 <= ext < 8 && Legal(adr)
    ensures var i := ArithInsn(ext, adr, imm32, wide);
      WfInsn(i) && |i.imm| == IntelImm(i) == i.correction && !Mismeasured(i)
  {
    hide Legal, Int32;
    RexBits(0, adr, false);
  }

  /** The value the processor uses for an immediate of one or four bytes. */
  function ImmValue(b: seq<int>): int {
    if |b| == 1 then SignByte(b[0]) else if |b| == 4 then ReadInt32(b) else 0
  }

  /** Of such an instruction the decoder finds the end, and an immediate that means what was asked. */
  lemma ArithInsnExact(ext: int, adr: Address, imm32: int, wide: bool, rest: seq<int>)
    requires 0 <= ext < 8 && Legal(adr) && IsSimm32(imm32)
    ensures var i := ArithInsn(ext, adr, imm32, wide);
      && WfInsn(i) && Locate(Bytes(i) + rest, EndPc) == Some(|Bytes(i)|)
      && var at := Locate(Bytes(i) + rest, Immediate);
      && at.Some? && at.value <= |Bytes(i)| && ImmValue(Bytes(i)[at.value..]) == imm32
  {
    hide Locate, Bytes, Legal, Prefix, PrefixQ, Int32, ReadInt32, SignByte, WfInsn, IntelImm, Mismeasured;
    var i := ArithInsn(ext, adr, imm32, wide);
    ArithInsnWf(ext, adr, imm32, wide);
    EndExactFollowed(i, rest);
    OperandsExact(i, rest);
    if Is8Bit(imm32) {
      ByteRoundTrip(imm32);
    } else {
      Int32RoundTrip(imm32);
    }
  }

  // ----- what the processor makes of such an instruction -----

  datatype Size = Byte | Dword | Qword

  /** An operation of group 1 of the opcode map, numbered by its extension from add to cmp. */
  datatype Group1 = Group1(ext: int, size: Size, rm: Rm, value: int, length: nat)

  /** Decoding by table A-6 and section 2.2.1 of the Intel SDM Volume 2: 0x80 has a byte operand and a byte
      immediate, 0x81 an immediate of four bytes and 0x83 one that is sign-extended; REX.W selects
      operands of eight bytes. */
  function DecodeGroup1(b: seq<int>): Option<Group1> {
    if b == [] then None
    else
      var rex := if RexPrefix(b[0]) then Some(b[0]) else None;
      var n := |RexBytes(rex)|;
      if n >= |b| || b[n] !in {0x80, 0x81, 0x83} then None
      else
        var size := if b[n] == 0x80 then Byte else if rex.Some? && rex.value / 8 % 2 == 1 then Qword else Dword;
        match Decode(DecodeRex(rex), b[n + 1..])
        case None => None
        case Some(d) =>
          var at, imm := n + 1 + d.length, if b[n] == 0x81 then 4 else 1;
          if at + imm > |b| then None
          else Some(Group1(d.reg % 8, size, d.rm, ImmValue(b[at..at + imm]), at + imm))
  }

  /** The emitted instruction is the operation `ext` with the given operand and value, on eight bytes
      if `wide` and on four otherwise, and its immediate is as short as it can be. */
  lemma ArithMeaning(ext: int, adr: Address, imm32: int, wide: bool, rest: seq<int>)
    requires 0 <= ext < 8 && Legal(adr) && IsSimm32(imm32)
    requires var pre, imm := ArithPrefix(adr, wide), ArithImm(imm32);
             IsRip(adr) ==> IsSimm32(RipDisp(adr, |pre| + 1, |imm|))
    ensures
      var i, pre, imm := ArithInsn(ext, adr, imm32, wide), ArithPrefix(adr, wide), ArithImm(imm32);
      && WfInsn(i)
      && DecodeGroup1(Bytes(i) + rest) == Some(Group1(ext, if wide then Qword else Dword,
                                                      Meaning(adr, |pre| + 1, |imm|), imm32, |Bytes(i)|))
      && |imm| == (if -0x80 <= imm32 < 0x80 then 1 else 4)
      && |Bytes(i)| == |pre| + 1 + |OperandCode(ext, adr, |pre| + 1, |imm|)| + |imm|
  {
    hide Decode, OperandCode, Legal, Prefix, PrefixQ, WfInsn, Bytes, ArithInsn, ArithImm, ImmValue, Meaning, RipDisp;
    var pre, op, imm := ArithPrefix(adr, wide), ArithOpcode(imm32), ArithImm(imm32);
    var rex := if wide then Some(PrefixQ(adr, 0)) else Prefix(adr, 0, false);
    ArithInsnBytes(ext, adr, imm32, wide);
    ArithRex(adr, wide);
    ArithImmValue(imm32);
    var e := OperandCode(ext, adr, |pre| + 1, |imm|);
    var b := Bytes(ArithInsn(ext, adr, imm32, wide)) + rest;
    ArithLayout(pre, op, e, imm, rest);
    RoundTrip(ext, adr, |pre| + 1, |imm|, false, imm + rest);
    ExtPrefix(adr, ext);
  }

  /** The extension in the register field needs no bit of the prefix. */
  lemma ExtPrefix(adr: Address, ext: int)
    requires 0 <= ext < 8
    ensures Prefix(adr, ext, false) == Prefix(adr, 0, false) && PrefixQ(adr, ext) == PrefixQ(adr, 0)
  {
  }

  lemma ArithRex(adr: Address, wide: bool)
    ensures
      var rex := if wide then Some(PrefixQ(adr, 0)) else Prefix(adr, 0, false);
      && ArithPrefix(adr, wide) == RexBytes(rex)
      && (rex.Some? ==> RexPrefix(rex.value) && (rex.value / 8 % 2 == 1 <==> wide)) && (wide ==> rex.Some?)
  {
  }

  lemma ArithImmValue(imm32: int)
    requires IsSimm32(imm32)
    ensures ImmValue(ArithImm(imm32)) == imm32 && |ArithImm(imm32)| == if ArithOpcode(imm32) == 0x81 then 4 else 1
    ensures |ArithImm(imm32)| == if -0x80 <= imm32 < 0x80 then 1 else 4
  {
    hide Int32, ReadInt32, SignByte;
    if Is8Bit(imm32) {
      ByteRoundTrip(imm32);
    } else {
      Int32RoundTrip(imm32);
    }
  }

  lemma ArithLayout(pre: seq<int>, op: int, e: seq<int>, imm: seq<int>, rest: seq<int>)
    ensures var b, n := pre + [op] + e + imm + rest, |pre|;
      && |b| == n + 1 + |e| + |imm| + |rest| && b[n] == op && (pre != [] ==> b[0] == pre[0])
      && b[n + 1..] == e + (imm + rest) && b[n + 1 + |e|..n + 1 + |e| + |imm|] == imm
  {
  }

  // ----- instructions the decoder loses -----

  lemma PrefixesSkipped(pre: seq<int>, rex: Option<int>)
    requires forall k | 0 <= k < |pre| :: LegacyPrefix(pre[k])
    requires rex.Some? ==> RexPrefix(rex.value)
    ensures forall k | 0 <= k < |pre| :: IsSkipped(pre[k])
    ensures rex.Some? ==> IsRex(rex.value)
  {
  }

  /** Opcodes the decoder has no case for, or takes an operand for where there is none. */
  datatype LostOp =
    | StringOp(rep: int, op: int)             // rep movs, rep stos, pause and the like
    | VexZero2(b1: int)                       // vzeroupper
    | VexZero3(b1: int, b2: int)
    | FwaitAlone
    | Unlisted(op: int)                       // one-byte opcodes without a case
    | UnlistedTwo(size: bool, op: int)        // the same behind 0x0F
    | UnlistedSized(op: int)                  // the same behind 0x66

  /** Any instruction: one the decoder follows, a lost one with the bytes behind its opcode, or one behind
      0xF2 or 0xF3, such as adox, whose opcode is not 0x0F and one more byte. Of these the decoder skips two
      bytes of the body and takes the third, which may be the opcode itself, for the ModRM byte. */
  datatype Code =
    | Followed(insn: Insn)
    | Lost(pre: seq<int>, rex: Option<int>, what: LostOp, tail: seq<int>)
    | Misread(pre: seq<int>, rep: int, rex: Option<int>, body: seq<int>)

  predicate WfLost(l: LostOp) {
    match l
    case StringOp(rep, op) => rep in {0xF2, 0xF3} && op != 0x0F && !RexPrefix(op)
    case VexZero2(_) => true
    case VexZero3(b1, _) => b1 % 32 == 1
    case FwaitAlone => true
    case Unlisted(op) =>
      && !OneByte(op) && !LegacyPrefix(op) && !RexPrefix(op) && !(0xB8 <= op < 0xC0)
      && op !in {0x66, 0x68, 0x0F, 0x9B, 0xC4, 0xC5, 0xE8, 0xE9, 0xF2, 0xF3}
    case UnlistedTwo(_, op) => !TwoByte(op) && op !in {0x38, 0x3A} && !(0x80 <= op < 0x90)
    case UnlistedSized(op) => !RexPrefix(op) && op !in {0x89, 0x8B, 0xC7, 0x0F}
  }

  predicate WfCode(c: Code) {
    match c
    case Followed(i) => WfInsn(i) && |i.imm| == IntelImm(i)
    case Lost(pre, rex, what, tail) =>
      && (forall k | 0 <= k < |pre| :: LegacyPrefix(pre[k]))
      && (rex.Some? ==> RexPrefix(rex.value))
      && WfLost(what)
      && (what.VexZero2? || what.VexZero3? ==> pre == [] && rex.None?)
      && (what.StringOp? || what.VexZero2? || what.VexZero3? || what.FwaitAlone? ==> tail == [])
    case Misread(pre, rep, rex, body) =>
      && (forall k | 0 <= k < |pre| :: LegacyPrefix(pre[k]))
      && rep in {0xF2, 0xF3}
      && (rex.Some? ==> RexPrefix(rex.value))
      && |body| >= 2 && !RexPrefix(body[0]) && (body[0] == 0x0F ==> body[1] in {0x38, 0x3A})
  }

  /** Nothing is left aside: every byte that is no prefix and leads to no longer opcode, and every opcode
      behind 0x0F and behind 0x66, but for conditional jumps behind 0x66, has a form. */
  lemma OpcodesCovered(op: int)
    requires 0 <= op < 0x100
    ensures
      || WfForm(Basic(op)) || WfForm(MoveImm(op)) || WfForm(Call(op)) || op == 0x68 || WfLost(Unlisted(op))
      || LegacyPrefix(op) || RexPrefix(op) || op in {0x0F, 0x66, 0x9B, 0xC4, 0xC5, 0xF2, 0xF3}
    ensures WfForm(Jcc(op)) || op in {0x38, 0x3A} ||
            forall size :: WfForm(Mapped(size, op)) || WfLost(UnlistedTwo(size, op))
    ensures forall size, m | m in {0x38, 0x3A} :: WfForm(Mapped3(size, m, op))
    ensures WfForm(Sized(op)) || RexPrefix(op) || op == 0x0F || WfLost(UnlistedSized(op))
    ensures WfForm(Push) && WfForm(Fwait) && WfLost(FwaitAlone)
  {
  }

  /** The same behind 0xF2 and 0xF3 and in the three VEX maps, and for operands. */
  lemma MapsCovered(op: int)
    requires 0 <= op < 0x100
    ensures forall rep | rep in {0xF2, 0xF3} ::
      && (WfForm(Rep(rep, op)) || op in {0x38, 0x3A})
      && (WfLost(StringOp(rep, op)) || RexPrefix(op) || op == 0x0F)
    ensures forall b1 :: WfForm(Vex2(b1, op)) || (op == 0x77 && WfLost(VexZero2(b1)))
    ensures forall b1, b2 | b1 % 32 in {1, 2, 3} ::
      WfForm(Vex3(b1, b2, op)) || (op == 0x77 && WfLost(VexZero3(b1, b2)))
    ensures forall reg, adr | IsReg(reg) && Legal(adr) :: WfOperand(Mem(reg, adr))
    ensures op >= 0xC0 ==> WfOperand(Direct(op))
  {
    hide Legal, OneByte, TwoByte;
  }

  lemma MisreadCovered(rep: int, map3: int, op: int, tail: seq<int>)
    requires rep in {0xF2, 0xF3} && map3 in {0x38, 0x3A}
    ensures WfCode(Misread([], rep, None, [0x0F, map3, op] + tail))
  {
    var body := [0x0F, map3, op] + tail;
    assert body[0] == 0x0F && body[1] == map3;
  }

  function LostPrefix(l: LostOp): seq<int> {
    match l
    case StringOp(rep, _) => [rep]
    case UnlistedTwo(size, _) => if size then [0x66] else []
    case UnlistedSized(_) => [0x66]
    case _ => []
  }

  function LostOpcode(l: LostOp): (b: seq<int>)
    ensures |b| >= 1
  {
    match l
    case StringOp(_, op) => [op]
    case VexZero2(b1) => [0xC5, b1, 0x77]
    case VexZero3(b1, b2) => [0xC4, b1, b2, 0x77]
    case FwaitAlone => [0x9B]
    case Unlisted(op) => [op]
    case UnlistedTwo(_, op) => [0x0F, op]
    case UnlistedSized(op) => [op]
  }

  function CodeBytes(c: Code): seq<int>
    requires WfCode(c)
  {
    match c
    case Followed(i) => Bytes(i)
    case Lost(pre, rex, what, tail) => pre + LostPrefix(what) + RexBytes(rex) + LostOpcode(what) + tail
    case Misread(pre, rep, rex, body) => pre + [rep] + RexBytes(rex) + body
  }

  lemma OperandAdvances(b: seq<int>, ip: nat)
    ensures match DecodeOperand(b, ip, EndPc) case None => true case Some((at, _)) => at > ip
  {
  }

  /** Where the decoder stands behind the opcode: nowhere, or past the end of the instruction. */
  predicate Astray(h: Head, length: nat) {
    h.Unknown? || (h.AtOperand? && h.ip >= length)
  }

  lemma AstrayEnd(b: seq<int>, length: nat)
    requires Astray(DecodeOpcode(b, 0, false), length)
    ensures Locate(b, EndPc) != Some(length)
  {
    hide DecodeOpcode, DecodeOperand;
    var h := DecodeOpcode(b, 0, false);
    if h.AtOperand? {
      OperandAdvances(b, h.ip);
    }
  }

  lemma LostBare(l: LostOp, b: seq<int>, n: nat, wide: bool)
    requires WfLost(l) && LostPrefix(l) == [] && !l.VexZero2? && !l.VexZero3?
    requires n <= |b| && LostOpcode(l) <= b[n..]
    ensures n < |b| && !IsSkipped(b[n]) && !IsRex(b[n])
    ensures if l.FwaitAlone? then Astray(DecodeBare(b, n, wide), n + 1) else DecodeBare(b, n, wide).Unknown?
  {
    BytesAt(b, n, LostOpcode(l));
  }

  lemma LostPrefixed(l: LostOp, rex: Option<int>, b: seq<int>, n: nat)
    requires WfLost(l) && LostPrefix(l) != [] && (rex.Some? ==> IsRex(rex.value))
    requires n + 1 + |RexBytes(rex)| <= |b|
    requires b[n] == LostPrefix(l)[0] && (rex.Some? ==> b[n + 1] == rex.value)
    requires LostOpcode(l) <= b[n + 1 + |RexBytes(rex)|..]
    ensures !IsSkipped(b[n]) && !IsRex(b[n])
    ensures if l.StringOp? then Astray(DecodeBare(b, n, false), n + 2 + |RexBytes(rex)|)
            else DecodeBare(b, n, false).Unknown?
  {
    var m := n + 1 + |RexBytes(rex)|;
    BytesAt(b, m, LostOpcode(l));
    if !l.StringOp? {
      SizedRex(b, n + 1, rex);
    }
  }

  /** Where the parts of an instruction lie. */
  lemma Layout(p: seq<int>, m: seq<int>, r: seq<int>, o: seq<int>, t: seq<int>, rest: seq<int>)
    requires o != []
    ensures var b, n := p + m + r + o + t + rest, |p| + |m| + |r|;
      && b == p + [] + (m + r + o + t + rest) && b == p + m + r + (o + t + rest)
      && n < |b| && b[n..] == o + (t + rest) && b[n] == o[0]
      && (m != [] ==> b[|p|] == m[0]) && (r != [] ==> b[|p| + |m|] == r[0])
  {
  }

  lemma LostWithoutPrefix(c: Code, rest: seq<int>)
    requires WfCode(c) && c.Lost? && LostPrefix(c.what) == [] && !c.what.VexZero2? && !c.what.VexZero3?
    ensures Astray(DecodeOpcode(CodeBytes(c) + rest, 0, false), |CodeBytes(c)|)
  {
    hide DecodeBare, DecodeOpcode, WfLost, IsSkipped, IsRex;
    var b, r, o := CodeBytes(c) + rest, RexBytes(c.rex), LostOpcode(c.what);
    Layout(c.pre, [], r, o, c.tail, rest);
    assert c.pre + [] + r == c.pre + r;
    LostBare(c.what, b, |c.pre| + |r|, c.rex.Some? && IsRexW(c.rex.value));
    PrefixesSkipped(c.pre, c.rex);
    SkipToBare(c.pre, c.rex, b, o + c.tail + rest);
  }

  lemma LostWithPrefix(c: Code, rest: seq<int>)
    requires WfCode(c) && c.Lost? && LostPrefix(c.what) != []
    ensures Astray(DecodeOpcode(CodeBytes(c) + rest, 0, false), |CodeBytes(c)|)
  {
    hide DecodeBare, DecodeOpcode, WfLost, IsSkipped, IsRex, LostOpcode;
    var b, m, r := CodeBytes(c) + rest, LostPrefix(c.what), RexBytes(c.rex);
    Layout(c.pre, m, r, LostOpcode(c.what), c.tail, rest);
    PrefixesSkipped(c.pre, c.rex);
    LostPrefixed(c.what, c.rex, b, |c.pre|);
    SkipToBare(c.pre, None, b, m + r + LostOpcode(c.what) + c.tail + rest);
    if c.what.StringOp? {
      StringLength(c);
    }
  }

  lemma StringLength(c: Code)
    requires WfCode(c) && c.Lost? && c.what.StringOp?
    ensures |CodeBytes(c)| == |c.pre| + 2 + |RexBytes(c.rex)|
  {
  }

  /** The end of a lost instruction is never found. */
  lemma LostEnd(c: Code, rest: seq<int>)
    requires WfCode(c) && c.Lost?
    ensures Locate(CodeBytes(c) + rest, EndPc) != Some(|CodeBytes(c)|)
  {
    hide Locate;
    var b := CodeBytes(c) + rest;
    if c.what.VexZero2? || c.what.VexZero3? {
      assert DecodeOpcode(b, 0, false) == DecodeBare(b, 0, false) == DecodeVex(b, 1);
    } else if LostPrefix(c.what) == [] {
      LostWithoutPrefix(c, rest);
    } else {
      LostWithPrefix(c, rest);
    }
    AstrayEnd(b, |CodeBytes(c)|);
  }

  // ----- instructions the decoder misreads -----

  /** The length of an operand by its ModRM byte and, where there is one, its SIB byte. */
  function OperandLength(b: seq<int>): nat
    requires b != []
  {
    var mod, sib := ModField(b[0]), RmField(b[0]) == 4 && ModField(b[0]) != 3;
    var base := if !sib then RmField(b[0]) else if |b| > 1 then RmField(b[1]) else 0;
    (if sib then 2 else 1) + if mod == 2 || (mod == 0 && base == 5) then 4 else if mod == 1 then 1 else 0
  }

  /** What stands behind the first two bytes has by chance the length of an operand. */
  predicate LooksWhole(body: seq<int>) {
    |body| > 2 && OperandLength(body[2..]) == |body| - 2
  }

  lemma OperandSpan(part: seq<int>, b: seq<int>, ip: nat)
    requires ip + |part| <= |b| && part <= b[ip..]
    ensures
      var at := DecodeOperand(b, ip, EndPc);
      && (at.Some? ==> !at.value.1)
      && (at.Some? && at.value.0 == ip + |part| <==> part != [] && OperandLength(part) == |part|)
  {
    hide ModField, RmField;
    BytesAt(b, ip, part);
    if part != [] {
      assert b[ip + 0] == part[0];
    }
    if |part| > 1 {
      assert b[ip + 1] == part[1];
    }
  }

  lemma RepDecodes(rex: Option<int>, b: seq<int>, n: nat)
    requires n + 1 + |RexBytes(rex)| < |b| && b[n] in {0xF2, 0xF3}
    requires if rex.Some? then b[n + 1] == rex.value && IsRex(rex.value) else !IsRex(b[n + 1])
    ensures !IsSkipped(b[n]) && !IsRex(b[n])
    ensures DecodeBare(b, n, false) == AtOperand(n + 1 + |RexBytes(rex)| + 2, 0)
  {
  }

  /** Where the parts of such an instruction lie. */
  lemma MisreadLayout(p: seq<int>, rep: int, r: seq<int>, body: seq<int>, rest: seq<int>)
    requires |body| >= 2
    ensures var b, n := p + [rep] + r + body + rest, |p| + 1 + |r|;
      && b == p + [] + ([rep] + r + body + rest) && |b| == n + |body| + |rest|
      && b[|p|] == rep && (r != [] ==> b[|p| + 1] == r[0]) && b[n] == body[0]
      && b[n + 2..] == body[2..] + rest
  {
  }

  lemma MisreadOpcode(c: Code, rest: seq<int>)
    requires WfCode(c) && c.Misread?
    ensures DecodeOpcode(CodeBytes(c) + rest, 0, false) == AtOperand(|c.pre| + 1 + |RexBytes(c.rex)| + 2, 0)
  {
    hide DecodeBare, DecodeOpcode, IsSkipped, IsRex;
    var b, r := CodeBytes(c) + rest, RexBytes(c.rex);
    MisreadLayout(c.pre, c.rep, r, c.body, rest);
    PrefixesSkipped(c.pre, c.rex);
    TablesAgree(c.body[0]);
    RepDecodes(c.rex, b, |c.pre|);
    SkipToBare(c.pre, None, b, [c.rep] + r + c.body + rest);
  }

  /** The end of a misread instruction is found by chance. Behind 0x0F38 and 0x0F3A the opcode is taken for
      the ModRM byte; from 0xC0 on that is an operand of one byte, and the true operand is not skipped. */
  lemma MisreadEnd(c: Code, rest: seq<int>)
    requires WfCode(c) && c.Misread?
    ensures Locate(CodeBytes(c) + rest, EndPc) == Some(|CodeBytes(c)|) <==> LooksWhole(c.body)
    ensures |c.body| > 3 && 0xC0 <= c.body[2] < 0x100 ==>
              Locate(CodeBytes(c) + rest, EndPc) == Some(|CodeBytes(c)| - |c.body| + 3)
  {
    hide DecodeOpcode, DecodeOperand, OperandLength;
    var b, part, ip := CodeBytes(c) + rest, c.body[2..], |c.pre| + 1 + |RexBytes(c.rex)| + 2;
    MisreadOpcode(c, rest);
    MisreadLayout(c.pre, c.rep, RexBytes(c.rex), c.body, rest);
    OperandSpan(part, b, ip);
    if |c.body| > 3 && 0xC0 <= c.body[2] < 0x100 {
      BytesAt(b, ip, part);
      assert b[ip + 0] == part[0];
      DirectDecodes(c.body[2], b, ip, EndPc);
    }
  }

  /** Whose end the decoder finds: instructions it follows, with an immediate of the size it assumes, and
      misread ones of the right length. */
  predicate IsMeasured(c: Code) {
    match c
    case Followed(i) => !Mismeasured(i)
    case Lost(_, _, _, _) => false
    case Misread(_, _, _, body) => LooksWhole(body)
  }

  /** The decoder finds the end of an instruction if and only if it is one of those. */
  lemma EndExact(c: Code, rest: seq<int>)
    requires WfCode(c)
    ensures Locate(CodeBytes(c) + rest, EndPc) == Some(|CodeBytes(c)|) <==> IsMeasured(c)
  {
    hide Locate, Bytes, Mismeasured, WfInsn, IntelImm, LooksWhole;
    match c
    case Followed(i) => EndExactFollowed(i, rest);
    case Lost(_, _, _, _) => LostEnd(c, rest);
    case Misread(_, _, _, _) => MisreadEnd(c, rest);
  }

  // ----- walking over code -----

  function Concat(code: seq<Code>): seq<int>
    requires forall k | 0 <= k < |code| :: WfCode(code[k])
  {
    if code == [] then [] else CodeBytes(code[0]) + Concat(code[1..])
  }

  /** The starts of n instructions and the end of the last, by repeated decoding from `at` on. */
  function Walk(b: seq<int>, at: nat, n: nat): Option<seq<nat>> {
    if n == 0 then Some([at])
    else match Locate(b, EndPc)
      case None => None
      case Some(len) =>
        if len > |b| then None
        else match Walk(b[len..], at + len, n - 1)
          case None => None
          case Some(starts) => Some([at] + starts)
  }

  function Boundaries(code: seq<Code>, at: nat): seq<nat>
    requires forall k | 0 <= k < |code| :: WfCode(code[k])
  {
    if code == [] then [at] else [at] + Boundaries(code[1..], at + |CodeBytes(code[0])|)
  }

  predicate Measured(code: seq<Code>) { forall k | 0 <= k < |code| :: IsMeasured(code[k]) }

  /** Everything about code splits at its first instruction. */
  lemma CodeSplit(code: seq<Code>, at: nat, rest: seq<int>)
    requires forall k | 0 <= k < |code| :: WfCode(code[k])
    ensures code == [] ==> Walk(Concat(code) + rest, at, 0) == Some(Boundaries(code, at)) && Measured(code)
    ensures code != [] ==>
      var later := Boundaries(code[1..], at + |CodeBytes(code[0])|);
      && Concat(code) + rest == CodeBytes(code[0]) + (Concat(code[1..]) + rest)
      && Boundaries(code, at) == [at] + later && later != [] && later[0] == at + |CodeBytes(code[0])|
      && (Measured(code) <==> IsMeasured(code[0]) && Measured(code[1..]))
  {
    hide WfCode, CodeBytes, IsMeasured;
    if code != [] {
      assert forall k | 1 <= k < |code| :: code[k] == code[1..][k - 1];
    }
  }

  /** Repeated decoding visits exactly the instruction boundaries, if and only if the decoder follows and
      measures every one of the instructions. */
  lemma {:induction false} WalkExact(code: seq<Code>, at: nat, rest: seq<int>)
    requires forall k | 0 <= k < |code| :: WfCode(code[k])
    ensures Walk(Concat(code) + rest, at, |code|) == Some(Boundaries(code, at)) <==> Measured(code)
  {
    hide *;
    CodeSplit(code, at, rest);
    if code != [] {
      var n := |CodeBytes(code[0])|;
      WalkExact(code[1..], at + n, rest);
      WalkFirst(code[0], Concat(code[1..]) + rest, at, |code|, Boundaries(code[1..], at + n));
    }
  }

  lemma WalkFirst(c: Code, tail: seq<int>, at: nat, n: nat, starts: seq<nat>)
    requires WfCode(c)
    requires n > 0 && starts != [] && starts[0] == at + |CodeBytes(c)|
    ensures Walk(CodeBytes(c) + tail, at, n) == Some([at] + starts)
      <==> IsMeasured(c) && Walk(tail, at + |CodeBytes(c)|, n - 1) == Some(starts)
  {
    hide *;
    EndExact(c, tail);
    WalkStep(CodeBytes(c), tail, at, n, starts);
  }

  /** A walk is right when its first step is right and the walk from there is. */
  lemma {:induction false} WalkStep(first: seq<int>, tail: seq<int>, at: nat, n: nat, starts: seq<nat>)
    requires n > 0 && starts != [] && starts[0] == at + |first|
    ensures Walk(first + tail, at, n) == Some([at] + starts)
      <==> Locate(first + tail, EndPc) == Some(|first|) && Walk(tail, at + |first|, n - 1) == Some(starts)
  {
    hide Locate;
    var b, len := first + tail, |first|;
    if Locate(b, EndPc) == Some(len) {
      assert b[len..] == tail;
      var later := Walk(tail, at + len, n - 1);
      if later.Some? {
        assert ([at] + later.value)[1..] == later.value && ([at] + starts)[1..] == starts;
      }
    } else {
      StrayWalk(b, at, n, len, starts);
    }
  }

  /** A walk whose first step has the wrong length misses the second boundary. */
  lemma {:induction false} StrayWalk(b: seq<int>, at: nat, n: nat, len: nat, starts: seq<nat>)
    requires n > 0 && Locate(b, EndPc) != Some(len) && starts != [] && starts[0] == at + len
    ensures Walk(b, at, n) != Some([at] + starts)
  {
    hide Locate;
    var w := Walk(b, at, n);
    if w.Some? {
      var step := Locate(b, EndPc).value;
      var later := Walk(b[step..], at + step, n - 1).value;
      assert later[0] == at + step;
      assert ([at] + later)[1] == later[0] && ([at] + starts)[1] == starts[0];
    }
  }

  /** Emitted instructions whose end is not found: a test of a register against an immediate, a shuffle
      of low words, an insertion into the upper half of a register and an addition with overflow flag,
      which end too early, and vzeroupper, pause and a repeated string move, behind which an operand is
      looked for. */
  lemma MismeasuredExamples(rest: seq<int>)
    ensures Locate([0xF7, 0xC1, 1, 0, 0, 0] + rest, EndPc) == Some(2)
    ensures Locate([0xF2, 0x0F, 0x70, 0xC1, 0x1B] + rest, EndPc) == Some(4)
    ensures Locate([0xC4, 0xE3, 0x7D, 0x18, 0xC1, 0x01] + rest, EndPc) == Some(5)
    ensures Locate([0xF3, 0x48, 0x0F, 0x38, 0xF6, 0xC1] + rest, EndPc) == Some(5)
    ensures Locate([0xC5, 0xF8, 0x77] + rest, EndPc) != Some(3)
    ensures Locate([0xF3, 0x90] + rest, EndPc) != Some(2)
    ensures Locate([0xF3, 0x48, 0xA5] + rest, EndPc) != Some(3)
  {
    var test := [0xF7, 0xC1, 1, 0, 0, 0] + rest;
    assert DecodeOpcode(test, 0, false) == DecodeBare(test, 0, false) == AtOperand(1, 0);
    var shuffle := [0xF2, 0x0F, 0x70, 0xC1, 0x1B] + rest;
    assert DecodeOpcode(shuffle, 0, false) == DecodeBare(shuffle, 0, false) == AtOperand(3, 0);
    var insertion := [0xC4, 0xE3, 0x7D, 0x18, 0xC1, 0x01] + rest;
    assert DecodeOpcode(insertion, 0, false) == DecodeBare(insertion, 0, false) == AtOperand(4, 0);
    AdoxExample(rest);
    LostExamples(rest);
  }

  lemma AdoxExample(rest: seq<int>)
    ensures Locate([0xF3, 0x48, 0x0F, 0x38, 0xF6, 0xC1] + rest, EndPc) == Some(5)
  {
    hide Locate;
    var adox := Misread([], 0xF3, Some(0x48), [0x0F, 0x38, 0xF6, 0xC1]);
    assert CodeBytes(adox) == [0xF3, 0x48, 0x0F, 0x38, 0xF6, 0xC1];
    MisreadEnd(adox, rest);
  }

  lemma LostExamples(rest: seq<int>)
    ensures Locate([0xC5, 0xF8, 0x77] + rest, EndPc) != Some(3)
    ensures Locate([0xF3, 0x90] + rest, EndPc) != Some(2)
    ensures Locate([0xF3, 0x48, 0xA5] + rest, EndPc) != Some(3)
  {
    hide Locate;
    var zero := Lost([], None, VexZero2(0xF8), []);
    assert CodeBytes(zero) == [0xC5, 0xF8, 0x77];
    LostEnd(zero, rest);
    var pause := Lost([], None, StringOp(0xF3, 0x90), []);
    assert CodeBytes(pause) == [0xF3, 0x90];
    LostEnd(pause, rest);
    var move := Lost([], Some(0x48), StringOp(0xF3, 0xA5), []);
    assert CodeBytes(move) == [0xF3, 0x48, 0xA5];
    LostEnd(move, rest);
  }
}
