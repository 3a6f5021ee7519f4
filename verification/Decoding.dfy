/** The hardware's reading of AMDGCN code words, from the field tables of the instruction set
    architectures: formats, source fields, and the three scalar instructions of an address load. */
module Decoding {

  const WORD: nat := 0x1_0000_0000

  // ---- Formats ----

  /** The fields of the formats of one word. */
  datatype Fields =
    | Sop2Word(op: nat, dst: nat, src1: nat, src0: nat) | Sop1Word(op: nat, dst: nat, src0: nat)
    | SopcWord(op: nat, src1: nat, src0: nat) | SoppWord(op: nat, simm: nat)
    | Vop2Word(op: nat, dst: nat, src1: nat, src0: nat) | Vop1Word(op: nat, dst: nat, src0: nat)
    | VopcWord(op: nat, src1: nat, src0: nat) | OtherWord

  /** The leading bits tell the formats apart: nine for SOP1, SOPC and SOPP, four for SOPK, two for
      SOP2, seven for VOP1 and VOPC, one for VOP2. */
  function DecodeWord(w: nat): Fields {
    if w / 0x80_0000 == 0x17D then Sop1Word(w / 256 % 256, w / 65536 % 128, w % 256)
    else if w / 0x80_0000 == 0x17E then SopcWord(w / 65536 % 128, w / 256 % 256, w % 256)
    else if w / 0x80_0000 == 0x17F then SoppWord(w / 65536 % 128, w % 65536)
    else if w / 0x1000_0000 == 0xB then OtherWord
    else if w / 0x4000_0000 == 2 then Sop2Word(w / 0x80_0000 % 128, w / 65536 % 128, w / 256 % 256, w % 256)
    else if w / 0x200_0000 == 0x3F then Vop1Word(w / 512 % 256, w / 0x2_0000 % 256, w % 512)
    else if w / 0x200_0000 == 0x3E then VopcWord(w / 0x2_0000 % 256, w / 512 % 256, w % 512)
    else if w < 0x8000_0000 then Vop2Word(w / 0x200_0000, w / 0x2_0000 % 256, w / 512 % 256, w % 512)
    else OtherWord
  }

  // ---- Source fields ----

  /** What a source field names: a register, or a 32-bit value. */
  datatype Source = Scalar(reg: nat) | Vector(reg: nat) | Vcc | Exec | Scc | M0 | Null | PrivateBase
                  | Value(bits: nat) | NoSource

  /** The table of source operands.  GFX11 exchanged the codes of M0 and of the null register.  Codes
      that differ otherwise between targets, or name nothing the compiler uses, are left open. */
  function ReadField(field: nat, literal: nat, gfx11: bool): Source {
    if field < 102 then Scalar(field)
    else if field == 106 then Vcc
    else if field == 124 then if gfx11 then Null else M0
    else if field == 125 then if gfx11 then M0 else Null
    else if field == 126 then Exec
    else if 128 <= field <= 192 then Value(field - 128)
    else if 193 <= field <= 208 then Value(WORD - (field - 192))
    else if field == 237 then PrivateBase
    else if field == 253 then Scc
    else if field == 255 then Value(literal)
    else if 256 <= field < 512 then Vector(field - 256)
    else NoSource
  }

  // ---- Address loads ----

  /** The opcodes of s_getpc_b64, s_add_u32 and s_addc_u32 on a target. */
  datatype Opcodes = Opcodes(getpc: nat, add: nat, addc: nat)

  datatype Scalars = Scalars(regs: map<nat, nat>, scc: nat)

  function ReadScalar(s: Scalars, field: nat, literal: nat): nat {
    if field == 255 then literal else if field in s.regs then s.regs[field] else 0
  }

  /** One scalar instruction at byte address `at`: getpc gives the address of the next instruction, add
      leaves its carry in SCC, addc takes it from there. */
  function RunScalar(t: Opcodes, s: Scalars, f: Fields, literal: nat, at: nat): Scalars {
    match f
    case Sop1Word(op, dst, _) =>
      if op == t.getpc then
        Scalars(s.regs[dst := (at + 4) % WORD][dst + 1 := (at + 4) / WORD % WORD], s.scc)
      else s
    case Sop2Word(op, dst, src1, src0) =>
      var sum := ReadScalar(s, src0, literal) + ReadScalar(s, src1, literal);
      if op == t.add then Scalars(s.regs[dst := sum % WORD], sum / WORD)
      else if op == t.addc then Scalars(s.regs[dst := (sum + s.scc) % WORD], (sum + s.scc) / WORD)
      else s
    case _ => s
  }

  /** The five words at pos: three instructions, the last two with a literal each. */
  function RunLoad(t: Opcodes, s: Scalars, code: seq<nat>, pos: nat, text: nat): Scalars
    requires pos + 5 <= |code|
  {
    var s1 := RunScalar(t, s, DecodeWord(code[pos]), 0, text + 4 * pos);
    var s2 := RunScalar(t, s1, DecodeWord(code[pos + 1]), code[pos + 2], text + 4 * (pos + 1));
    RunScalar(t, s2, DecodeWord(code[pos + 3]), code[pos + 4], text + 4 * (pos + 3))
  }

  /** The words at pos, but for the two literals, are those of an address load into reg and the next. */
  predicate IsAddressLoad(t: Opcodes, code: seq<nat>, pos: nat, reg: nat) {
    && pos + 4 <= |code| && t.add != t.addc && reg + 1 < 102
    && DecodeWord(code[pos]) == Sop1Word(t.getpc, reg, 0)
    && DecodeWord(code[pos + 1]) == Sop2Word(t.add, reg, 255, reg)
    && DecodeWord(code[pos + 3]) == Sop2Word(t.addc, reg + 1, 255, reg + 1)
  }

  /** From every state the five words leave the 64-bit number goal in the pair, and nothing else. */
  ghost predicate Leaves(t: Opcodes, code: seq<nat>, pos: nat, text: nat, reg: nat, goal: nat) {
    && pos + 5 <= |code|
    && forall s: Scalars ::
         RunLoad(t, s, code, pos, text).regs == s.regs[reg := goal % WORD][reg + 1 := goal / WORD]
  }
}
