/** Encoding of register and memory operands in 64-bit mode, and decoding by the rules of
sections 2.1.5 and 2.2.1 of the Intel SDM Volume 2A. */
module Encoding {
  import opened Options

  /** Registers are numbered 0 to 15 by their encoding. `reloc` means that the displacement
      carries a relocation. */
  datatype Address = Address(base: Option<int>, index: Option<int>, scale: int, disp: int, reloc: bool)

  predicate IsReg(r: int) { 0 <= r < 16 }
  predicate Is8Bit(x: int) { -0x80 <= x < 0x80 }
  predicate IsSimm32(x: int) { -0x8000_0000 <= x < 0x8000_0000 }

  /** rsp (4) cannot be an index. */
  predicate Legal(adr: Address) {
    && (adr.base.Some? ==> IsReg(adr.base.value))
    && (adr.index.Some? ==> IsReg(adr.index.value) && adr.index.value != 4 && 0 <= adr.scale <= 3)
    && IsSimm32(adr.disp)
  }

  // ----- emission -----

  /** The three low bits of a register number. */
  function Encode(r: int): int {
    if r >= 8 then r - 8 else r
  }

  /** Four bytes, least significant first. */
  function Int32(x: int): (b: seq<int>)
    ensures |b| == 4
  {
    [x % 256, x / 256 % 256, x / 65536 % 256, x / 16777216 % 256]
  }

  function ModRm(mod: int, reg: int, rm: int): int { 64 * mod + 8 * reg + rm }

  /** ModRM, SIB and displacement bytes. `at` bytes of the instruction stand before them and
      `after` bytes, the RIP-relative correction, follow. */
  function OperandCode(reg: int, adr: Address, at: nat, after: nat): (bytes: seq<int>)
    requires IsReg(reg) && Legal(adr)
    ensures |bytes| >= 1
  {
    var r := Encode(reg);
    if adr.base.Some? then
      var base := adr.base.value;
      if adr.index.Some? then
        var sib := ModRm(adr.scale, Encode(adr.index.value), Encode(base));
        if adr.disp == 0 && !adr.reloc && base != 5 && base != 13 then [ModRm(0, r, 4), sib]
        else if Is8Bit(adr.disp) && !adr.reloc then [ModRm(1, r, 4), sib, adr.disp % 256]
        else [ModRm(2, r, 4), sib] + Int32(adr.disp)
      else if base == 4 || base == 12 then
        if adr.disp == 0 && !adr.reloc then [ModRm(0, r, 4), 0x24]
        else if Is8Bit(adr.disp) && !adr.reloc then [ModRm(1, r, 4), 0x24, adr.disp % 256]
        else [ModRm(2, r, 4), 0x24] + Int32(adr.disp)
      else
        if adr.disp == 0 && !adr.reloc && base != 5 && base != 13 then [ModRm(0, r, Encode(base))]
        else if Is8Bit(adr.disp) && !adr.reloc then [ModRm(1, r, Encode(base)), adr.disp % 256]
        else [ModRm(2, r, Encode(base))] + Int32(adr.disp)
    else
      if adr.index.Some? then
        [ModRm(0, r, 4), ModRm(adr.scale, Encode(adr.index.value), 5)] + Int32(adr.disp)
      else if adr.reloc then
        [ModRm(0, r, 5)] + Int32(RipDisp(adr, at, after))
      else
        [ModRm(0, r, 4), 0x25] + Int32(adr.disp)
  }

  /** The displacement was computed from the start of the instruction; the processor counts from
      its end, which is one ModRM byte, four displacement bytes and `after` further bytes on. */
  function RipDisp(adr: Address, at: nat, after: nat): int {
    adr.disp - (at + 1 + 4 + after)
  }

  predicate IsRip(adr: Address) { adr.base.None? && adr.index.None? && adr.reloc }

  // ----- prefixes -----

  predicate NeedsRex(r: Option<int>) { r.Some? && r.value >= 8 }

  /** The REX prefix of an instruction with 32-bit or byte operands, if any. */
  function Prefix(adr: Address, reg: int, byteinst: bool): Option<int> {
    if reg < 8 then
      if NeedsRex(adr.base) then if NeedsRex(adr.index) then Some(0x43) else Some(0x41)
      else if NeedsRex(adr.index) then Some(0x42)
      else if byteinst && reg >= 4 then Some(0x40)
      else None
    else
      if NeedsRex(adr.base) then if NeedsRex(adr.index) then Some(0x47) else Some(0x45)
      else if NeedsRex(adr.index) then Some(0x46)
      else Some(0x44)
  }

  /** The REX prefix of an instruction with 64-bit operands. */
  function PrefixQ(adr: Address, reg: int): int {
    if reg < 8 then
      if NeedsRex(adr.base) then if NeedsRex(adr.index) then 0x4B else 0x49
      else if NeedsRex(adr.index) then 0x4A
      else 0x48
    else
      if NeedsRex(adr.base) then if NeedsRex(adr.index) then 0x4F else 0x4D
      else if NeedsRex(adr.index) then 0x4E
      else 0x4C
  }

  /** The same for an instruction with two register operands, of which `rm` may be a byte register. */
  function RegPrefix(reg: int, rm: int, byteinst: bool): Option<int> {
    if reg < 8 then
      if rm >= 8 then Some(0x41)
      else if byteinst && rm >= 4 then Some(0x40)
      else None
    else if rm < 8 then Some(0x44)
    else Some(0x45)
  }

  function RegPrefixQ(reg: int, rm: int): int {
    if reg < 8 then if rm < 8 then 0x48 else 0x49
    else if rm < 8 then 0x4C
    else 0x4D
  }

  function PrefixBytes(prefix: Option<int>): seq<int> {
    if prefix.Some? then [prefix.value] else []
  }

  // ----- emission into a buffer -----

  /** The bytes emitted so far. `instMark` is where the current instruction starts. */
  class CodeBuffer {
    var code: seq<int>
    var instMark: nat

    ghost predicate Valid()
      reads this
    {
      instMark <= |code|
    }

    constructor ()
      ensures Valid() && code == []
    {
      code, instMark := [], 0;
    }

    method EmitPrefix(adr: Address, reg: int, byteinst: bool)
      requires Valid()
      modifies this`code
      ensures Valid() && code == old(code) + PrefixBytes(Prefix(adr, reg, byteinst))
    {
      var base, index := NeedsRex(adr.base), NeedsRex(adr.index);
      if reg < 8 {
        if base {
          code := code + if index then [0x43] else [0x41];
        } else if index {
          code := code + [0x42];
        } else if byteinst && reg >= 4 {
          code := code + [0x40];
        }
      } else if base {
        code := code + if index then [0x47] else [0x45];
      } else {
        code := code + if index then [0x46] else [0x44];
      }
    }

    /** One register operand. The caller puts the result into a ModRM byte. */
    method PrefixAndEncodeOne(reg: int, byteinst: bool) returns (encode: int)
      requires Valid() && IsReg(reg)
      modifies this`code
      ensures Valid() && code == old(code) + PrefixBytes(RegPrefix(0, reg, byteinst)) && encode == reg % 8
    {
      encode := reg;
      if reg >= 8 {
        code := code + [0x41];
        encode := encode - 8;
      } else if byteinst && reg >= 4 {
        code := code + [0x40];
      }
    }

    method PrefixQAndEncodeOne(reg: int) returns (encode: int)
      requires Valid() && IsReg(reg)
      modifies this`code
      ensures Valid() && code == old(code) + [RegPrefixQ(0, reg)] && encode == reg % 8
    {
      encode := reg;
      if reg < 8 {
        code := code + [0x48];
      } else {
        code := code + [0x49];
        encode := encode - 8;
      }
    }

    method PrefixAndEncode(dst: int, src: int, byteinst: bool) returns (encode: int)
      requires Valid() && IsReg(dst) && IsReg(src)
      modifies this`code
      ensures Valid() && code == old(code) + PrefixBytes(RegPrefix(dst, src, byteinst))
      ensures 0xC0 + encode == ModRm(3, dst % 8, src % 8)
    {
      var d, s := dst, src;
      if d < 8 {
        if s >= 8 {
          code := code + [0x41];
          s := s - 8;
        } else if byteinst && s >= 4 {
          code := code + [0x40];
        }
      } else {
        if s < 8 {
          code := code + [0x44];
        } else {
          code := code + [0x45];
          s := s - 8;
        }
        d := d - 8;
      }
      encode := 8 * d + s;
    }

    method PrefixQAndEncode(dst: int, src: int) returns (encode: int)
      requires Valid() && IsReg(dst) && IsReg(src)
      modifies this`code
      ensures Valid() && code == old(code) + [RegPrefixQ(dst, src)]
      ensures 0xC0 + encode == ModRm(3, dst % 8, src % 8)
    {
      var d, s := dst, src;
      if d < 8 {
        if s < 8 {
          code := code + [0x48];
        } else {
          code := code + [0x49];
          s := s - 8;
        }
      } else {
        if s < 8 {
          code := code + [0x4C];
        } else {
          code := code + [0x4D];
          s := s - 8;
        }
        d := d - 8;
      }
      encode := 8 * d + s;
    }

    /** The displacement of a relocated operand without registers depends on where in the instruction
        it is emitted, and on the correction for what the caller will emit behind it. */
    method EmitOperand(reg: int, adr: Address, correction: nat)
      requires Valid() && IsReg(reg) && Legal(adr)
      modifies this`code
      ensures Valid() && code == old(code) + OperandCode(reg, adr, |old(code)| - instMark, correction)
    {
      hide Int32, ModRm;
      var r := Encode(reg);
      if adr.base.Some? && adr.index.Some? {
        var sib := ModRm(adr.scale, Encode(adr.index.value), Encode(adr.base.value));
        if adr.disp == 0 && !adr.reloc && adr.base.value != 5 && adr.base.value != 13 {
          code := code + [ModRm(0, r, 4), sib];
        } else if Is8Bit(adr.disp) && !adr.reloc {
          code := code + [ModRm(1, r, 4), sib, adr.disp % 256];
        } else {
          code := code + [ModRm(2, r, 4), sib];
          EmitInt32(adr.disp);
        }
      } else if adr.base.Some? && (adr.base.value == 4 || adr.base.value == 12) {
        if adr.disp == 0 && !adr.reloc {
          code := code + [ModRm(0, r, 4), 0x24];
        } else if Is8Bit(adr.disp) && !adr.reloc {
          code := code + [ModRm(1, r, 4), 0x24, adr.disp % 256];
        } else {
          code := code + [ModRm(2, r, 4), 0x24];
          EmitInt32(adr.disp);
        }
      } else if adr.base.Some? {
        var base := Encode(adr.base.value);
        if adr.disp == 0 && !adr.reloc && adr.base.value != 5 && adr.base.value != 13 {
          code := code + [ModRm(0, r, base)];
        } else if Is8Bit(adr.disp) && !adr.reloc {
          code := code + [ModRm(1, r, base), adr.disp % 256];
        } else {
          code := code + [ModRm(2, r, base)];
          EmitInt32(adr.disp);
        }
      } else if adr.index.Some? {
        code := code + [ModRm(0, r, 4), ModRm(adr.scale, Encode(adr.index.value), 5)];
        EmitInt32(adr.disp);
      } else if adr.reloc {
        code := code + [ModRm(0, r, 5)];
        var nextIp := |code| + 4 + correction;
        EmitInt32(adr.disp - (nextIp - instMark));
      } else {
        code := code + [ModRm(0, r, 4), 0x25];
        EmitInt32(adr.disp);
      }
    }

    method EmitInt32(x: int)
      requires Valid()
      modifies this`code
      ensures Valid() && code == old(code) + Int32(x)
    {
      code := code + Int32(x);
    }
  }

  // ----- decoding -----

  /** The R, X and B bits of a REX prefix, each 0 or 1; without a prefix they are 0. */
  datatype Rex = Rex(r: int, x: int, b: int)

  function DecodeRex(prefix: Option<int>): Rex {
    match prefix
    case None => Rex(0, 0, 0)
    case Some(p) => Rex(p / 4 % 2, p / 2 % 2, p % 2)
  }

  datatype Rm =
    | Register(r: int)
    | Memory(base: Option<int>, index: Option<int>, scale: int, disp: int)
    | RipRelative(disp: int)

  datatype Decoded = Decoded(reg: int, rm: Rm, length: nat)

  function SignByte(b: int): int { if b < 128 then b else b - 256 }

  function ReadInt32(b: seq<int>): int
    requires |b| >= 4
  {
    var u := b[0] + 256 * b[1] + 65536 * b[2] + 16777216 * b[3];
    if u < 0x8000_0000 then u else u - 0x1_0000_0000
  }

  /** The displacement selected by mod, after the given number of ModRM and SIB bytes. */
  function DecodeDisp(mod: int, bytes: seq<int>, at: nat): Option<(int, nat)> {
    if mod == 0 then Some((0, at))
    else if mod == 1 then if at < |bytes| then Some((SignByte(bytes[at]), at + 1)) else None
    else if at + 4 <= |bytes| then Some((ReadInt32(bytes[at..at + 4]), at + 4)) else None
  }

  function DecodeSib(rex: Rex, mod: int, reg: int, bytes: seq<int>): Option<Decoded>
    requires |bytes| >= 2
  {
    var sib := bytes[1];
    var index := sib / 8 % 8 + 8 * rex.x;
    var idx := if index == 4 then None else Some(index);
    var scale := if index == 4 then 0 else sib / 64;
    if sib % 8 == 5 && mod == 0 then
      match DecodeDisp(2, bytes, 2)
      case None => None
      case Some((d, n)) => Some(Decoded(reg, Memory(None, idx, scale, d), n))
    else
      match DecodeDisp(mod, bytes, 2)
      case None => None
      case Some((d, n)) => Some(Decoded(reg, Memory(Some(sib % 8 + 8 * rex.b), idx, scale, d), n))
  }

  function Decode(rex: Rex, bytes: seq<int>): Option<Decoded> {
    if bytes == [] then None
    else
      var mod, rm := bytes[0] / 64, bytes[0] % 8;
      var reg := bytes[0] / 8 % 8 + 8 * rex.r;
      if mod == 3 then Some(Decoded(reg, Register(rm + 8 * rex.b), 1))
      else if rm == 4 then if |bytes| >= 2 then DecodeSib(rex, mod, reg, bytes) else None
      else if rm == 5 && mod == 0 then
        match DecodeDisp(2, bytes, 1)
        case None => None
        case Some((d, n)) => Some(Decoded(reg, RipRelative(d), n))
      else
        match DecodeDisp(mod, bytes, 1)
        case None => None
        case Some((d, n)) => Some(Decoded(reg, Memory(Some(rm + 8 * rex.b), None, 0, d), n))
  }

  /** What a register number means as a byte operand: without a REX prefix 4 to 7 are the second
      bytes of the first four registers. */
  datatype ByteReg = Low(r: int) | High(r: int)

  function DecodeByteReg(prefix: Option<int>, r: int): ByteReg {
    if prefix.None? && 4 <= r < 8 then High(r - 4) else Low(r)
  }

  // ----- round trip -----

  /** The operand the address stands for. */
  function Meaning(adr: Address, at: nat, after: nat): Rm {
    if IsRip(adr) then RipRelative(RipDisp(adr, at, after))
    else Memory(adr.base, adr.index, if adr.index.Some? then adr.scale else 0, adr.disp)
  }

  lemma LowDigit(x: int)
    ensures x == 256 * (x / 256) + x % 256
  {
  }

  lemma HighDigits(x: int)
    ensures x / 65536 == x / 256 / 256 && x / 16777216 == x / 256 / 256 / 256
  {
  }

  lemma Int32RoundTrip(x: int)
    requires IsSimm32(x)
    ensures ReadInt32(Int32(x)) == x
  {
    HighDigits(x);
    LowDigit(x);
    LowDigit(x / 256);
    LowDigit(x / 256 / 256);
    var q := x / 16777216;
    assert q % 256 == if q >= 0 then q else q + 256;
  }

  lemma ByteRoundTrip(x: int)
    requires Is8Bit(x)
    ensures SignByte(x % 256) == x
  {
  }

  lemma FieldsRoundTrip(a: int, b: int, c: int)
    requires 0 <= a < 4 && 0 <= b < 8 && 0 <= c < 8
    ensures ModRm(a, b, c) / 64 == a && ModRm(a, b, c) / 8 % 8 == b && ModRm(a, b, c) % 8 == c
  {
    assert ModRm(a, b, c) / 8 == 8 * a + b;
  }

  lemma Disp8RoundTrip(head: seq<int>, disp: int, rest: seq<int>)
    requires Is8Bit(disp)
    ensures DecodeDisp(1, head + [disp % 256] + rest, |head|) == Some((disp, |head| + 1))
  {
    assert (head + [disp % 256] + rest)[|head|] == disp % 256;
  }

  lemma Disp32RoundTrip(head: seq<int>, disp: int, rest: seq<int>)
    requires IsSimm32(disp)
    ensures DecodeDisp(2, head + Int32(disp) + rest, |head|) == Some((disp, |head| + 4))
  {
    hide Int32, ReadInt32;
    assert (head + Int32(disp) + rest)[|head|..|head| + 4] == Int32(disp);
    Int32RoundTrip(disp);
  }

  /** The bits of the prefix complete the three-bit register fields. */
  lemma RexBits(reg: int, adr: Address, byteinst: bool)
    requires IsReg(reg) && Legal(adr)
    ensures DecodeRex(Prefix(adr, reg, byteinst)) == RexOf(reg, adr) == DecodeRex(Some(PrefixQ(adr, reg)))
    ensures 0x48 <= PrefixQ(adr, reg) < 0x50
    ensures Prefix(adr, reg, byteinst).Some? ==> 0x40 <= Prefix(adr, reg, byteinst).value < 0x48
    ensures Prefix(adr, reg, byteinst).None? <==> RexOf(reg, adr) == Rex(0, 0, 0) && !(byteinst && reg >= 4)
  {
  }

  /** One bit for each operand register from 8 up. */
  function RexOf(reg: int, adr: Address): Rex {
    Rex(if reg >= 8 then 1 else 0, if NeedsRex(adr.index) then 1 else 0, if NeedsRex(adr.base) then 1 else 0)
  }

  lemma SibRoundTrip(reg: int, adr: Address, at: nat, after: nat, rest: seq<int>)
    requires IsReg(reg) && Legal(adr) && adr.base.Some? && adr.index.Some?
    ensures
      var e := OperandCode(reg, adr, at, after);
      Decode(RexOf(reg, adr), e + rest) == Some(Decoded(reg, Meaning(adr, at, after), |e|))
  {
    hide Int32, DecodeDisp, ModRm;
    var r, x, b := Encode(reg), Encode(adr.index.value), Encode(adr.base.value);
    var sib := ModRm(adr.scale, x, b);
    FieldsRoundTrip(adr.scale, x, b);
    var e := OperandCode(reg, adr, at, after) + rest;
    if adr.disp == 0 && !adr.reloc && b != 5 {
      FieldsRoundTrip(0, r, 4);
      assert DecodeDisp(0, e, 2) == Some((0, 2)) by { NoDisp(e, 2); }
    } else if Is8Bit(adr.disp) && !adr.reloc {
      FieldsRoundTrip(1, r, 4);
      Disp8RoundTrip([ModRm(1, r, 4), sib], adr.disp, rest);
      assert e == [ModRm(1, r, 4), sib] + [adr.disp % 256] + rest;
    } else {
      FieldsRoundTrip(2, r, 4);
      Disp32RoundTrip([ModRm(2, r, 4), sib], adr.disp, rest);
    }
  }

  lemma NoDisp(bytes: seq<int>, at: nat)
    ensures DecodeDisp(0, bytes, at) == Some((0, at))
  {
  }

  /** rsp and r12 select a SIB byte, here one without an index. */
  lemma StackRoundTrip(reg: int, adr: Address, at: nat, after: nat, rest: seq<int>)
    requires IsReg(reg) && Legal(adr) && adr.base.Some? && adr.index.None? && adr.base.value in {4, 12}
    ensures
      var e := OperandCode(reg, adr, at, after);
      Decode(RexOf(reg, adr), e + rest) == Some(Decoded(reg, Meaning(adr, at, after), |e|))
  {
    hide Int32, DecodeDisp, ModRm;
    var r := Encode(reg);
    var e := OperandCode(reg, adr, at, after) + rest;
    if adr.disp == 0 && !adr.reloc {
      FieldsRoundTrip(0, r, 4);
      assert DecodeDisp(0, e, 2) == Some((0, 2)) by { NoDisp(e, 2); }
    } else if Is8Bit(adr.disp) && !adr.reloc {
      FieldsRoundTrip(1, r, 4);
      Disp8RoundTrip([ModRm(1, r, 4), 0x24], adr.disp, rest);
      assert e == [ModRm(1, r, 4), 0x24] + [adr.disp % 256] + rest;
    } else {
      FieldsRoundTrip(2, r, 4);
      Disp32RoundTrip([ModRm(2, r, 4), 0x24], adr.disp, rest);
    }
  }

  lemma PlainRoundTrip(reg: int, adr: Address, at: nat, after: nat, rest: seq<int>)
    requires IsReg(reg) && Legal(adr) && adr.base.Some? && adr.index.None? && adr.base.value !in {4, 12}
    ensures
      var e := OperandCode(reg, adr, at, after);
      Decode(RexOf(reg, adr), e + rest) == Some(Decoded(reg, Meaning(adr, at, after), |e|))
  {
    hide Int32, DecodeDisp, ModRm;
    var r, b := Encode(reg), Encode(adr.base.value);
    var e := OperandCode(reg, adr, at, after) + rest;
    if adr.disp == 0 && !adr.reloc && b != 5 {
      FieldsRoundTrip(0, r, b);
      assert DecodeDisp(0, e, 1) == Some((0, 1)) by { NoDisp(e, 1); }
    } else if Is8Bit(adr.disp) && !adr.reloc {
      FieldsRoundTrip(1, r, b);
      Disp8RoundTrip([ModRm(1, r, b)], adr.disp, rest);
      assert e == [ModRm(1, r, b)] + [adr.disp % 256] + rest;
    } else {
      FieldsRoundTrip(2, r, b);
      Disp32RoundTrip([ModRm(2, r, b)], adr.disp, rest);
    }
  }

  lemma BaselessRoundTrip(reg: int, adr: Address, at: nat, after: nat, rest: seq<int>)
    requires IsReg(reg) && Legal(adr) && adr.base.None?
    requires IsRip(adr) ==> IsSimm32(RipDisp(adr, at, after))
    ensures
      var e := OperandCode(reg, adr, at, after);
      Decode(RexOf(reg, adr), e + rest) == Some(Decoded(reg, Meaning(adr, at, after), |e|))
  {
    hide Int32, DecodeDisp, ModRm, RipDisp;
    var r := Encode(reg);
    if adr.index.Some? {
      var sib := ModRm(adr.scale, Encode(adr.index.value), 5);
      FieldsRoundTrip(0, r, 4);
      FieldsRoundTrip(adr.scale, Encode(adr.index.value), 5);
      Disp32RoundTrip([ModRm(0, r, 4), sib], adr.disp, rest);
    } else if adr.reloc {
      FieldsRoundTrip(0, r, 5);
      Disp32RoundTrip([ModRm(0, r, 5)], RipDisp(adr, at, after), rest);
    } else {
      FieldsRoundTrip(0, r, 4);
      Disp32RoundTrip([ModRm(0, r, 4), 0x25], adr.disp, rest);
    }
  }

  /** Whatever follows, the bytes of an operand and the prefix emitted with it decode to the same
      register, base, index, scale and displacement, and to the length that was emitted. */
  lemma RoundTrip(reg: int, adr: Address, at: nat, after: nat, byteinst: bool, rest: seq<int>)
    requires IsReg(reg) && Legal(adr)
    requires IsRip(adr) ==> IsSimm32(RipDisp(adr, at, after))
    ensures
      var e := OperandCode(reg, adr, at, after);
      var d := Some(Decoded(reg, Meaning(adr, at, after), |e|));
      && Decode(DecodeRex(Prefix(adr, reg, byteinst)), e + rest) == d
      && Decode(DecodeRex(Some(PrefixQ(adr, reg))), e + rest) == d
  {
    hide Decode, OperandCode, Prefix, PrefixQ, DecodeRex, RexOf, Meaning;
    RexBits(reg, adr, byteinst);
    if adr.base.None? {
      BaselessRoundTrip(reg, adr, at, after, rest);
    } else if adr.index.Some? {
      SibRoundTrip(reg, adr, at, after, rest);
    } else if adr.base.value in {4, 12} {
      StackRoundTrip(reg, adr, at, after, rest);
    } else {
      PlainRoundTrip(reg, adr, at, after, rest);
    }
  }

  /** The same for two registers. A byte operand is the low byte of its register, and the prefix is left
      out just when nothing needs it. */
  lemma RegisterRoundTrip(reg: int, rm: int, byteinst: bool, rest: seq<int>)
    requires IsReg(reg) && IsReg(rm)
    ensures
      var e, p := [ModRm(3, reg % 8, rm % 8)], RegPrefix(reg, rm, byteinst);
      && Decode(DecodeRex(p), e + rest) == Some(Decoded(reg, Register(rm), 1))
      && Decode(DecodeRex(Some(RegPrefixQ(reg, rm))), e + rest) == Some(Decoded(reg, Register(rm), 1))
      && (byteinst ==> DecodeByteReg(p, rm) == Low(rm))
      && (p.None? <==> reg < 8 && rm < 8 && !(byteinst && rm >= 4))
      && (p.Some? ==> 0x40 <= p.value < 0x48) && 0x48 <= RegPrefixQ(reg, rm) < 0x50
  {
    hide ModRm;
    FieldsRoundTrip(3, reg % 8, rm % 8);
    assert ([ModRm(3, reg % 8, rm % 8)] + rest)[0] == ModRm(3, reg % 8, rm % 8);
  }

  /** Two operands with one encoding are the same operand. */
  lemma EncodingInjective(reg: int, adr: Address, reg': int, adr': Address, at: nat, after: nat)
    requires IsReg(reg) && Legal(adr) && IsReg(reg') && Legal(adr')
    requires IsRip(adr) ==> IsSimm32(RipDisp(adr, at, after))
    requires IsRip(adr') ==> IsSimm32(RipDisp(adr', at, after))
    requires PrefixQ(adr, reg) == PrefixQ(adr', reg')
    requires OperandCode(reg, adr, at, after) == OperandCode(reg', adr', at, after)
    ensures reg == reg' && Meaning(adr, at, after) == Meaning(adr', at, after)
  {
    hide *;
    RoundTrip(reg, adr, at, after, false, []);
    RoundTrip(reg', adr', at, after, false, []);
  }
}
