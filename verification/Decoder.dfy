/** Finding the operands and the end of an instruction by decoding its bytes, in 64-bit mode. */
module Decoder {
  import opened Options

  /** What a caller may ask for: the end of the instruction, its 32-bit displacement, or the
      immediate or branch displacement behind everything else. */
  datatype Which = EndPc | Disp32 | Immediate

  // ----- opcode tables -----

  predicate IsRex(b: int) { 0x40 <= b < 0x50 }
  predicate IsRexW(b: int) { 0x48 <= b < 0x50 }

  /** Bytes that are skipped: segment overrides, the address size prefix and lock. */
  predicate IsSkipped(b: int) { b in {0x26, 0x2E, 0x36, 0x3E, 0x64, 0x65, 0x67, 0xF0} }

  /** How many bytes the decoder expects behind the operand of a one-byte opcode; `None` if it
      does not know the opcode. */
  function TailOne(op: int): Option<nat> {
    if op in {0x69, 0xC7, 0x81} then Some(4)
    else if op in {0x83, 0xC1, 0xC6, 0x80, 0x6B} then Some(1)
    else if 0 <= op < 0x40 && op % 8 < 4 then Some(0)
    else if op in {0xFF, 0x88, 0x89, 0x8A, 0x8B, 0x8F, 0xF7, 0x8D, 0x87, 0x85, 0xD1, 0xD3} then Some(0)
    else if 0xD8 <= op <= 0xDF && op != 0xDA then Some(0)
    else None
  }

  /** The same for the opcodes behind 0x0F. */
  function TailTwo(op: int): Option<nat> {
    if op in {0x70, 0x73, 0xC4, 0xC5, 0xAC} then Some(1)
    else if op in {0x12, 0x28, 0x2E, 0x2F, 0x54, 0x55, 0x56, 0x57, 0x6E, 0x7E, 0xAE, 0xAD, 0xAF,
                   0xBE, 0xBF, 0xB6, 0xB7, 0xB0, 0xB1, 0xC1, 0xC7} then Some(0)
    else if 0x40 <= op < 0x50 || 0x90 <= op < 0xA0 then Some(0)
    else None
  }

  function TailVex(op: int): nat { if op in {0x61, 0x70, 0x73} then 1 else 0 }

  // ----- decoding -----

  /** Where the decoder stands behind the opcode: at an operand, at a plain immediate, or lost. */
  datatype Head =
    | AtOperand(ip: nat, tail: nat)
    | AtImmediate(ip: nat, size: nat)
    | Unknown

  function DecodeTwo(b: seq<int>, ip: nat): Head {
    if ip >= |b| then Unknown
    else if b[ip] == 0x3A then AtOperand(ip + 2, 1)
    else if b[ip] == 0x38 then AtOperand(ip + 2, 0)
    else if 0x80 <= b[ip] < 0x90 then AtImmediate(ip + 1, 4)
    else if TailTwo(b[ip]).Some? then AtOperand(ip + 1, TailTwo(b[ip]).value)
    else Unknown
  }

  /** Behind the operand size prefix. */
  function DecodeSized(b: seq<int>, ip: nat): Head
    decreases |b| - ip
  {
    if ip >= |b| then Unknown
    else if IsRex(b[ip]) then DecodeSized(b, ip + 1)
    else if b[ip] == 0x8B || b[ip] == 0x89 then AtOperand(ip + 1, 0)
    else if b[ip] == 0xC7 then AtOperand(ip + 1, 2)
    else if b[ip] == 0x0F then DecodeTwo(b, ip + 1)
    else Unknown
  }

  /** Behind 0xF2 or 0xF3. */
  function DecodeRep(b: seq<int>, ip: nat): Head {
    if ip >= |b| then Unknown
    else if IsRex(b[ip]) then AtOperand(ip + 3, 0)
    else AtOperand(ip + 2, 0)
  }

  /** Behind the first VEX byte. */
  function DecodeVex(b: seq<int>, ip: nat): Head
    requires b != []
  {
    var op := if b[0] == 0xC4 then ip + 2 else ip + 1;
    if op >= |b| then Unknown else AtOperand(op + 1, TailVex(b[op]))
  }

  function DecodeOpcode(b: seq<int>, ip: nat, wide: bool): Head
    decreases |b| - ip
  {
    if ip >= |b| then Unknown
    else if IsSkipped(b[ip]) then DecodeOpcode(b, ip + 1, wide)
    else if IsRex(b[ip]) then DecodeOpcode(b, ip + 1, wide || IsRexW(b[ip]))
    else DecodeBare(b, ip, wide)
  }

  /** Behind all prefixes. */
  function DecodeBare(b: seq<int>, ip: nat, wide: bool): Head
    requires ip < |b|
  {
    var op := b[ip];
    if op == 0x68 then AtImmediate(ip + 1, 4)
    else if op == 0x66 then DecodeSized(b, ip + 1)
    else if 0xB8 <= op < 0xC0 then AtImmediate(ip + 1, if wide then 8 else 4)
    else if op == 0x0F then DecodeTwo(b, ip + 1)
    else if op == 0x9B then if ip + 1 < |b| && b[ip + 1] == 0xD9 then AtOperand(ip + 2, 0) else Unknown
    else if op == 0xC4 || op == 0xC5 then DecodeVex(b, ip + 1)
    else if op == 0xE8 || op == 0xE9 then AtImmediate(ip + 1, 4)
    else if op == 0xF3 || op == 0xF2 then DecodeRep(b, ip + 1)
    else if TailOne(op).Some? then AtOperand(ip + 1, TailOne(op).value)
    else Unknown
  }

  function ModField(b: int): int { b / 64 }
  function RmField(b: int): int { b % 8 }

  /** Decoding of ModRM, SIB and displacement. The result is the address of the displacement if
      that was asked for and has 32 bits, and the end of the operand otherwise. */
  function DecodeOperand(b: seq<int>, ip: nat, which: Which): Option<(nat, bool)> {
    if ip >= |b| then None
    else
      var mod := ModField(b[ip]);
      var sib := RmField(b[ip]) == 4 && mod != 3;
      if sib && ip + 1 >= |b| then None
      else
        var base := if sib then RmField(b[ip + 1]) else RmField(b[ip]);
        var at := if sib then ip + 2 else ip + 1;
        if mod == 2 || (mod == 0 && base == 5) then
          if which == Disp32 then Some((at, true)) else Some((at + 4, false))
        else if mod == 1 then Some((at + 1, false))
        else Some((at, false))
  }

  function Locate(b: seq<int>, which: Which): Option<nat> {
    match DecodeOpcode(b, 0, false)
    case Unknown => None
    case AtImmediate(ip, size) => Some(if which == EndPc then ip + size else ip)
    case AtOperand(ip, tail) =>
      match DecodeOperand(b, ip, which)
      case None => None
      case Some((at, found)) => Some(if !found && which == EndPc then at + tail else at)
  }

  // ----- the decoder as it runs, moving a cursor over the bytes -----

  method SkipPrefixes(b: seq<int>) returns (ip: nat, wide: bool)
    ensures ip <= |b| && DecodeOpcode(b, ip, wide) == DecodeOpcode(b, 0, false)
    ensures ip < |b| ==> DecodeOpcode(b, 0, false) == DecodeBare(b, ip, wide)
  {
    ip, wide := 0, false;
    while ip < |b| && (IsSkipped(b[ip]) || IsRex(b[ip]))
      invariant ip <= |b|
      invariant DecodeOpcode(b, ip, wide) == DecodeOpcode(b, 0, false)
    {
      if IsRexW(b[ip]) {
        wide := true;
      }
      ip := ip + 1;
    }
  }

  /** Skips the opcode of which the first byte has been read. */
  method SkipOpcode(b: seq<int>, start: nat, wide: bool) returns (head: Head)
    requires start < |b|
    ensures head == DecodeBare(b, start, wide)
  {
    hide TailOne, TailTwo, TailVex;
    var first, ip, tail := b[start], start + 1, 0;
    if first == 0x66 {
      while ip < |b| && IsRex(b[ip])
        invariant ip <= |b|
        invariant DecodeSized(b, ip) == DecodeBare(b, start, wide)
      {
        ip := ip + 1;
      }
      if ip >= |b| {
        return Unknown;
      }
      first := b[ip];
      ip := ip + 1;
      if first == 0xC7 {
        tail := 2;
      } else if first != 0x8B && first != 0x89 && first != 0x0F {
        return Unknown;
      }
    } else if first == 0x68 || first == 0xE8 || first == 0xE9 {
      return AtImmediate(ip, 4);
    } else if 0xB8 <= first < 0xC0 {
      return AtImmediate(ip, if wide then 8 else 4);
    } else if first == 0x9B {
      if ip >= |b| || b[ip] != 0xD9 {
        return Unknown;
      }
      ip := ip + 1;
    } else if first == 0xC4 || first == 0xC5 {
      if b[0] == 0xC4 {
        ip := ip + 1;
      }
      ip := ip + 1;
      if ip >= |b| {
        return Unknown;
      }
      tail := TailVex(b[ip]);
      ip := ip + 1;
    } else if first == 0xF3 || first == 0xF2 {
      if ip >= |b| {
        return Unknown;
      }
      if IsRex(b[ip]) {
        ip := ip + 1;
      }
      ip := ip + 2;
    } else if first != 0x0F {
      if TailOne(first).None? {
        return Unknown;
      }
      tail := TailOne(first).value;
    }
    if first == 0x0F {
      head := SkipSecond(b, ip);
    } else {
      head := AtOperand(ip, tail);
    }
  }

  method SkipSecond(b: seq<int>, start: nat) returns (head: Head)
    ensures head == DecodeTwo(b, start)
  {
    hide TailTwo;
    if start >= |b| {
      return Unknown;
    }
    var second, ip, tail := b[start], start + 1, 0;
    if second == 0x3A || second == 0x38 {
      tail := if second == 0x3A then 1 else 0;
      ip := ip + 1;
    } else if 0x80 <= second < 0x90 {
      return AtImmediate(ip, 4);
    } else if TailTwo(second).Some? {
      tail := TailTwo(second).value;
    } else {
      return Unknown;
    }
    head := AtOperand(ip, tail);
  }

  method LocateOperand(b: seq<int>, which: Which) returns (r: Option<nat>)
    ensures r == Locate(b, which)
  {
    hide DecodeBare, IsSkipped, IsRex;
    var ip, wide := SkipPrefixes(b);
    if ip >= |b| {
      return None;
    }
    var head := SkipOpcode(b, ip, wide);
    if head.Unknown? {
      return None;
    }
    ip := head.ip;
    if head.AtImmediate? {
      return Some(if which == EndPc then ip + head.size else ip);
    }
    if ip >= |b| {
      return None;
    }
    var op2 := b[ip];
    var mod, base := ModField(op2), RmField(op2);
    ip := ip + 1;
    if base == 4 && mod != 3 {
      if ip >= |b| {
        return None;
      }
      base := RmField(b[ip]);
      ip := ip + 1;
    }
    if mod == 2 || (mod == 0 && base == 5) {
      if which == Disp32 {
        return Some(ip);
      }
      ip := ip + 4;
    } else if mod == 1 {
      ip := ip + 1;
    }
    return Some(if which == EndPc then ip + head.tail else ip);
  }
}
