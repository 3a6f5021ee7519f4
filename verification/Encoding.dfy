/** The AMDGCN encoder: source operands, instruction sizes, the two passes over a function, and the
    address literals patched in afterwards. */
module Encoding {
  import Decoding

  const MAX_OPS: nat := 6
  const U32: nat := 0x1_0000_0000

  datatype Operand =
    | Sgpr(reg: nat) | Vgpr(reg: nat) | Special(which: SpecialReg)
    | Imm(value: int) | Label(block: nat) | Gsym(slot: nat) | Absent

  datatype SpecialReg = VCC | EXEC | SCC | M0 | PrivateBase

  /** Formats.  Unknown stands for an opcode outside the table. */
  datatype Format = SOP1 | SOP2 | SOPC | SOPP | VOP1 | VOP2 | VOPC | Long | Flat | Gaddr | Pseudo | Other | Unknown

  /** hw is the opcode field; long the dwords of the formats of fixed length, whose bits are not
      modelled, or the three opcodes of an address load. */
  datatype Inst = Inst(fmt: Format, hw: nat, defs: nat, uses: nat, ops: seq<Operand>, long: seq<nat>)

  predicate InstOk(gfx12: bool, mi: Inst) {
    && |mi.ops| == MAX_OPS && mi.defs + 1 < MAX_OPS && mi.defs + mi.uses <= MAX_OPS
    && (mi.fmt == Long ==> |mi.long| == 2) && (mi.fmt == Flat ==> |mi.long| == if gfx12 then 3 else 2)
    && (mi.fmt == Gaddr ==> |mi.long| == 3)
  }

  // ---- Source operands ----

  predicate FitsInline(v: int) {
    0 <= v <= 64 || -16 <= v <= -1
  }

  predicate NeedsLiteral(op: Operand) {
    op.Imm? && !FitsInline(op.value)
  }

  function InlineField(v: int): nat
    requires FitsInline(v)
  {
    if v >= 0 then 128 + v else 192 + (-v - 1)
  }

  /** The constant that the hardware reads in a source field: 128 to 192 are 0 to 64, and 193 to 208
      are -1 to -16 (AMD RDNA3 instruction set architecture, table of scalar source operands). */
  function InlineConstant(field: nat): int
    requires 128 <= field <= 208
  {
    if field <= 192 then field - 128 else 192 - field
  }

  /** An inline constant reads back exactly when it is not negative: a negative one reads one too
      high, and -1 reads as 64. */
  lemma InlineReadsBack(v: int)
    requires FitsInline(v)
    ensures 128 <= InlineField(v) <= 208
    ensures InlineConstant(InlineField(v)) == v <==> v >= 0
    ensures v < 0 ==> InlineConstant(InlineField(v)) == if v == -1 then 64 else v + 1
  {
  }

  /** The numbers encoded without a literal are those the hardware has a code for. */
  lemma InlineExact(v: int)
    ensures FitsInline(v) <==> exists field: nat :: 128 <= field <= 208 && InlineConstant(field) == v
  {
    if FitsInline(v) {
      var field: nat := if v >= 0 then 128 + v else 192 - v;
      assert InlineConstant(field) == v;
    }
  }

  /** encode_ssrc: the 8-bit source field of the scalar formats. */
  function ScalarField(op: Operand): nat {
    match op
    case Sgpr(r) => r % 256
    case Special(VCC) => 106
    case Special(EXEC) => 126
    case Special(SCC) => 253
    case Special(M0) => 124
    case Special(PrivateBase) => 0xED
    case Imm(v) => if FitsInline(v) then InlineField(v) else 255
    case _ => 0
  }

  /** encode_vsrc: the 9-bit source field of the vector formats. */
  function VectorField(op: Operand): nat {
    match op
    case Vgpr(r) => (256 + r) % 512
    case Sgpr(r) => r % 512
    case Special(VCC) => 106
    case Special(EXEC) => 126
    case Special(SCC) => 253
    case Imm(v) => if FitsInline(v) then InlineField(v) else 255
    case _ => 0
  }

  function ScalarDest(op: Operand): (d: nat)
    ensures d < 256
  {
    match op
    case Sgpr(r) => r % 256
    case Special(VCC) => 106
    case Special(EXEC) => 126
    case Special(SCC) => 253
    case Special(M0) => 124
    case _ => 0
  }

  function VectorReg(op: Operand): nat {
    if op.Vgpr? then op.reg % 256 else 0
  }

  /** The literal dword: each long immediate among the sources overwrites the one before. */
  function LiteralOf(ops: seq<Operand>): nat {
    if ops == [] then 0
    else
      var last := ops[|ops| - 1];
      if NeedsLiteral(last) then last.value % U32 else LiteralOf(ops[..|ops| - 1])
  }

  /** Every long immediate among the sources is read back exactly when they are all the same. */
  lemma {:induction false} LiteralShared(ops: seq<Operand>)
    requires forall k :: 0 <= k < |ops| && NeedsLiteral(ops[k]) ==> -0x8000_0000 <= ops[k].value < 0x8000_0000
    ensures (forall k :: 0 <= k < |ops| && NeedsLiteral(ops[k]) ==> ops[k].value % U32 == LiteralOf(ops))
       <==> (forall j, k :: 0 <= j < |ops| && 0 <= k < |ops| && NeedsLiteral(ops[j]) && NeedsLiteral(ops[k]) ==>
               ops[j].value == ops[k].value)
  {
    LiteralIsOne(ops);
  }

  lemma {:induction false} LiteralIsOne(ops: seq<Operand>)
    ensures AnyLiteral(ops) ==>
              exists k :: 0 <= k < |ops| && NeedsLiteral(ops[k]) && LiteralOf(ops) == ops[k].value % U32
  {
    if ops != [] {
      var n := |ops| - 1;
      if !NeedsLiteral(ops[n]) {
        LiteralIsOne(ops[..n]);
        if AnyLiteral(ops) {
          var k :| 0 <= k < |ops| && NeedsLiteral(ops[k]);
          assert ops[..n][k] == ops[k];
        }
      }
    }
  }

  // ---- Sizes ----

  /** The operands a short format looks at. */
  function Sources(mi: Inst): seq<Operand>
    requires |mi.ops| == MAX_OPS && mi.defs + 1 < MAX_OPS
  {
    match mi.fmt
    case SOP2 => [mi.ops[mi.defs]] + if mi.uses > 1 then [mi.ops[mi.defs + 1]] else []
    case SOP1 => if mi.uses > 0 then [mi.ops[mi.defs]] else []
    case SOPC => [mi.ops[0]] + if mi.uses > 1 then [mi.ops[1]] else []
    case VOP1 => if mi.uses > 0 then [mi.ops[mi.defs]] else []
    case VOP2 => [mi.ops[mi.defs]]
    case VOPC => if mi.uses > 0 then [mi.ops[0]] else []
    case _ => []
  }

  predicate IsShort(f: Format) {
    f == SOP1 || f == SOP2 || f == SOPC || f == SOPP || f == VOP1 || f == VOP2 || f == VOPC
  }

  ghost predicate AnyLiteral(ops: seq<Operand>) {
    exists k :: 0 <= k < |ops| && NeedsLiteral(ops[k])
  }

  /** Pass 1: bytes an instruction is expected to take. */
  ghost function Expected(gfx12: bool, mi: Inst): nat
    requires InstOk(gfx12, mi)
  {
    if IsShort(mi.fmt) then if AnyLiteral(mi.ops[..mi.defs + mi.uses]) then 8 else 4
    else match mi.fmt
         case Long => 8
         case Flat => if gfx12 then 12 else 8
         case Gaddr => 20
         case Pseudo => 0
         case _ => 4
  }

  /** The operands of a well-formed address load. */
  predicate GaddrOk(mi: Inst)
    requires |mi.ops| == MAX_OPS
  {
    mi.defs >= 1 && mi.uses >= 1 && mi.ops[0].Sgpr? && mi.ops[1].Gsym? && mi.ops[0].reg + 1 < 102
  }

  /** Pass 2: dwords an instruction does take. */
  ghost function Taken(gfx12: bool, mi: Inst): nat
    requires InstOk(gfx12, mi)
  {
    if IsShort(mi.fmt) then if AnyLiteral(Sources(mi)) then 2 else 1
    else match mi.fmt
         case Long => 2
         case Flat => if gfx12 then 3 else 2
         case Gaddr => if GaddrOk(mi) then 5 else 0
         case Pseudo => 0
         case Unknown => 0
         case _ => 1
  }

  /** When the two passes agree on an instruction: its long immediates are exactly where its encoder
      looks, its opcode is in the table and its address load is well formed. */
  ghost predicate Agrees(gfx12: bool, mi: Inst)
    requires InstOk(gfx12, mi)
  {
    && (IsShort(mi.fmt) ==> (AnyLiteral(mi.ops[..mi.defs + mi.uses]) <==> AnyLiteral(Sources(mi))))
    && mi.fmt != Unknown && (mi.fmt == Gaddr ==> GaddrOk(mi))
  }

  lemma AgreesIff(gfx12: bool, mi: Inst)
    requires InstOk(gfx12, mi)
    ensures Expected(gfx12, mi) == 4 * Taken(gfx12, mi) <==> Agrees(gfx12, mi)
  {
    hide AnyLiteral, Sources;
  }

  // ---- Words ----

  function Sopp(hw: nat, simm: nat): (w: nat)
    requires simm < 65536
    ensures w % 65536 == simm
  {
    0xBF80_0000 + (hw % 128) * 65536 + simm
  }

  /** Fields that overlap are or-ed: a destination of 8 bits reaches into the opcode. */
  function SetLow(a: nat, bit: nat): nat {
    if bit == 1 && a % 2 == 0 then a + 1 else a
  }

  function Sop2(hw: nat, sdst: nat, src1: nat, src0: nat): nat
    requires sdst < 256
  {
    0x8000_0000 + SetLow(hw % 128, sdst / 128) * 0x80_0000 + sdst % 128 * 65536 + src1 % 256 * 256 + src0 % 256
  }

  /** The hardware's reading of a SOP2 word gives back what was put in exactly when the destination
      fits its 7 bits or the opcode is odd anyway. */
  lemma Sop2Decodes(hw: nat, sdst: nat, src1: nat, src0: nat)
    requires sdst < 256 && hw < 128 && src1 < 256 && src0 < 256
    ensures var w := Sop2(hw, sdst, src1, src0);
            && w % 256 == src0 && w / 256 % 256 == src1 && w / 65536 % 128 == sdst % 128
            && (w / 0x80_0000 % 128 == hw <==> sdst < 128 || hw % 2 == 1)
  {
    var w := Sop2(hw, sdst, src1, src0);
    var op := SetLow(hw, sdst / 128);
    var d := sdst % 128;
    assert w == 256 * (256 * (128 * (256 + op) + d) + src1) + src0;
    assert w / 256 == 256 * (128 * (256 + op) + d) + src1;
    assert w / 65536 == 128 * (256 + op) + d;
    assert w / 0x80_0000 == 256 + op;
  }

  /** C division toward zero. */
  function TruncDiv(a: int, b: int): int
    requires b > 0
  {
    if a < 0 then -((-a) / b) else a / b
  }

  predicate IsBranch(mi: Inst)
    requires |mi.ops| == MAX_OPS
  {
    mi.fmt == SOPP && mi.uses > 0 && mi.ops[0].Label?
  }

  /** The immediate of a SOPP word; disp is the displacement in dwords for a branch. */
  function Simm(mi: Inst, disp: int): (r: nat)
    requires |mi.ops| == MAX_OPS
    ensures r < 65536
  {
    if mi.uses > 0 && mi.ops[0].Label? then disp % 65536
    else if mi.uses > 0 && mi.ops[0].Imm? then mi.ops[0].value % 65536
    else 0
  }

  /** The first word of a short format. */
  function ShortWord(mi: Inst, disp: int): nat
    requires |mi.ops| == MAX_OPS && mi.defs + 1 < MAX_OPS
  {
    var d := if mi.defs > 0 then ScalarDest(mi.ops[0]) else 0;
    match mi.fmt
    case SOP2 =>
      Sop2(mi.hw, d, if mi.uses > 1 then ScalarField(mi.ops[mi.defs + 1]) else 0, ScalarField(mi.ops[mi.defs]))
    case SOP1 =>
      0xBE80_0000 + d % 128 * 65536 + mi.hw % 256 * 256 + if mi.uses > 0 then ScalarField(mi.ops[mi.defs]) else 0
    case SOPC =>
      0xBF00_0000 + mi.hw % 128 * 65536 + (if mi.uses > 1 then ScalarField(mi.ops[1]) else 0) * 256
      + ScalarField(mi.ops[0])
    case SOPP => Sopp(mi.hw, Simm(mi, disp))
    case VOP1 =>
      var v := if mi.defs > 0 && (mi.ops[0].Vgpr? || mi.ops[0].Sgpr?) then mi.ops[0].reg % 256 else 0;
      0x7E00_0000 + v * 0x2_0000 + mi.hw % 256 * 512 + if mi.uses > 0 then VectorField(mi.ops[mi.defs]) else 0
    case VOP2 =>
      mi.hw % 64 * 0x200_0000 + (if mi.defs > 0 then VectorReg(mi.ops[0]) else 0) * 0x2_0000
      + (if mi.uses > 1 then VectorReg(mi.ops[mi.defs + 1]) else 0) * 512 + VectorField(mi.ops[mi.defs])
    case VOPC =>
      0x7C00_0000 + mi.hw % 256 * 0x2_0000 + (if mi.uses > 1 then VectorReg(mi.ops[1]) else 0) * 512
      + if mi.uses > 0 then VectorField(mi.ops[0]) else 0
    case _ => 0
  }

  // ---- Reading the words back ----

  /** What an operand means, in the terms of the hardware. */
  function Meant(op: Operand): Decoding.Source {
    match op
    case Sgpr(r) => Decoding.Scalar(r)
    case Vgpr(r) => Decoding.Vector(r)
    case Special(VCC) => Decoding.Vcc
    case Special(EXEC) => Decoding.Exec
    case Special(SCC) => Decoding.Scc
    case Special(M0) => Decoding.M0
    case Special(PrivateBase) => Decoding.PrivateBase
    case Imm(v) => Decoding.Value(v % U32)
    case _ => Decoding.NoSource
  }

  /** A 32-bit immediate that is read back: not a negative inline constant, and if long, the one that
      is emitted. */
  predicate ImmReadable(v: int, literal: nat) {
    if FitsInline(v) then v >= 0 else v % U32 == literal
  }

  predicate ScalarReadable(op: Operand, literal: nat, gfx11: bool) {
    match op
    case Sgpr(r) => r < 102
    case Special(which) => which == M0 ==> !gfx11
    case Imm(v) => ImmReadable(v, literal)
    case _ => false
  }

  predicate VectorReadable(op: Operand, literal: nat) {
    match op
    case Sgpr(r) => r < 102
    case Vgpr(r) => r < 256
    case Special(which) => which == VCC || which == EXEC || which == SCC
    case Imm(v) => ImmReadable(v, literal)
    case _ => false
  }

  predicate Is32(op: Operand) {
    op.Imm? ==> -0x8000_0000 <= op.value < 0x8000_0000
  }

  lemma ScalarReadsBack(op: Operand, literal: nat, gfx11: bool)
    requires Is32(op)
    ensures ScalarField(op) < 256
    ensures Decoding.ReadField(ScalarField(op), literal, gfx11) == Meant(op) <==> ScalarReadable(op, literal, gfx11)
  {
  }

  lemma VectorReadsBack(op: Operand, literal: nat, gfx11: bool)
    requires Is32(op)
    ensures VectorField(op) < 512
    ensures Decoding.ReadField(VectorField(op), literal, gfx11) == Meant(op) <==> VectorReadable(op, literal)
  {
  }

  predicate DestReadable(op: Operand, gfx11: bool) {
    match op
    case Sgpr(r) => r < 102
    case Special(which) => which == VCC || which == EXEC || (which == M0 && !gfx11)
    case _ => false
  }

  lemma DestReadsBack(op: Operand, gfx11: bool)
    requires !op.Imm?
    ensures Decoding.ReadField(ScalarDest(op) % 128, 0, gfx11) == Meant(op) <==> DestReadable(op, gfx11)
    ensures DestReadable(op, gfx11) ==> ScalarDest(op) < 128
  {
  }

  /** The word, followed by a literal dword, says what the instruction says: opcode, destination and
      sources. */
  predicate Says(f: Decoding.Fields, literal: nat, gfx11: bool, mi: Inst)
    requires |mi.ops| == MAX_OPS && mi.defs + 1 < MAX_OPS
  {
    var first, second := Meant(mi.ops[mi.defs]), Meant(mi.ops[mi.defs + 1]);
    match f
    case Sop2Word(op, dst, src1, src0) =>
      && mi.fmt == SOP2 && op == mi.hw
      && (mi.defs > 0 ==> Decoding.ReadField(dst, 0, gfx11) == Meant(mi.ops[0]))
      && (mi.uses > 0 ==> Decoding.ReadField(src0, literal, gfx11) == first)
      && (mi.uses > 1 ==> Decoding.ReadField(src1, literal, gfx11) == second)
    case Sop1Word(op, dst, src0) =>
      && mi.fmt == SOP1 && op == mi.hw
      && (mi.defs > 0 ==> Decoding.ReadField(dst, 0, gfx11) == Meant(mi.ops[0]))
      && (mi.uses > 0 ==> Decoding.ReadField(src0, literal, gfx11) == first)
    case SopcWord(op, src1, src0) =>
      && mi.fmt == SOPC && op == mi.hw
      && (mi.uses > 0 ==> Decoding.ReadField(src0, literal, gfx11) == first)
      && (mi.uses > 1 ==> Decoding.ReadField(src1, literal, gfx11) == second)
    case SoppWord(op, simm) =>
      && mi.fmt == SOPP && op == mi.hw && (mi.uses == 0 ==> simm == 0)
      && (mi.uses > 0 && mi.ops[0].Imm? ==> simm == mi.ops[0].value % 65536)
    case Vop1Word(op, dst, src0) =>
      && mi.fmt == VOP1 && op == mi.hw
      && (mi.defs > 0 ==> mi.ops[0] == Vgpr(dst) || mi.ops[0] == Sgpr(dst))
      && (mi.uses > 0 ==> Decoding.ReadField(src0, literal, gfx11) == first)
    case Vop2Word(op, dst, src1, src0) =>
      && mi.fmt == VOP2 && op == mi.hw
      && (mi.defs > 0 ==> mi.ops[0] == Vgpr(dst))
      && (mi.uses > 0 ==> Decoding.ReadField(src0, literal, gfx11) == first)
      && (mi.uses > 1 ==> mi.ops[mi.defs + 1] == Vgpr(src1))
    case VopcWord(op, src1, src0) =>
      && mi.fmt == VOPC && op == mi.hw
      && (mi.uses > 0 ==> Decoding.ReadField(src0, literal, gfx11) == first)
      && (mi.uses > 1 ==> mi.ops[mi.defs + 1] == Vgpr(src1))
    case OtherWord => false
  }

  /** The opcode fits its field and is not one that the hardware takes for another format. */
  predicate OpcodeFits(mi: Inst) {
    match mi.fmt
    case SOP2 => mi.hw < 96
    case SOP1 => mi.hw < 256
    case SOPC => mi.hw < 128
    case SOPP => mi.hw < 128
    case VOP1 => mi.hw < 256
    case VOP2 => mi.hw < 62
    case VOPC => mi.hw < 256
    case _ => false
  }

  /** Two long immediates are the same. */
  predicate OneLiteral(a: Operand, b: Operand) {
    NeedsLiteral(a) && NeedsLiteral(b) ==> a.value % U32 == b.value % U32
  }

  predicate NotNegative(op: Operand) {
    op.Imm? && FitsInline(op.value) ==> op.value >= 0
  }

  /** A scalar source that its field can name; of a long immediate, if it is the one emitted. */
  predicate ScalarSource(op: Operand, gfx11: bool) {
    NotNegative(op) && (op.Imm? || ScalarReadable(op, 0, gfx11))
  }

  predicate VectorSource(op: Operand) {
    NotNegative(op) && (op.Imm? || VectorReadable(op, 0))
  }

  /** What the format can express. */
  predicate Expressible(mi: Inst, gfx11: bool)
    requires |mi.ops| == MAX_OPS && mi.defs + 1 < MAX_OPS
  {
    var first, second := mi.ops[mi.defs], mi.ops[mi.defs + 1];
    && OpcodeFits(mi)
    && match mi.fmt
       case SOP2 =>
         && (mi.defs > 0 ==> DestReadable(mi.ops[0], gfx11)) && (mi.uses > 0 ==> ScalarSource(first, gfx11))
         && (mi.uses > 1 ==> ScalarSource(second, gfx11) && OneLiteral(first, second))
       case SOP1 =>
         (mi.defs > 0 ==> DestReadable(mi.ops[0], gfx11)) && (mi.uses > 0 ==> ScalarSource(first, gfx11))
       case SOPC =>
         && (mi.uses > 0 ==> ScalarSource(first, gfx11))
         && (mi.uses > 1 ==> ScalarSource(second, gfx11) && OneLiteral(first, second))
       case VOP1 =>
         && (mi.defs > 0 ==> (mi.ops[0].Vgpr? || mi.ops[0].Sgpr?) && mi.ops[0].reg < 256)
         && (mi.uses > 0 ==> VectorSource(first))
       case VOP2 =>
         && (mi.defs > 0 ==> mi.ops[0].Vgpr? && mi.ops[0].reg < 256) && (mi.uses > 0 ==> VectorSource(first))
         && (mi.uses > 1 ==> second.Vgpr? && second.reg < 256)
       case VOPC =>
         (mi.uses > 0 ==> VectorSource(first)) && (mi.uses > 1 ==> second.Vgpr? && second.reg < 256)
       case _ => true
  }

  lemma Quotients(x: nat, m: nat, r: nat)
    requires r < m
    ensures (x * m + r) / m == x && (x * m + r) % m == r
  {
    var q := (x * m + r) / m;
    assert q < x ==> (q + 1) * m <= x * m;
    assert q > x ==> (x + 1) * m <= q * m;
  }

  /** The quotients that the decoder takes of a word in the scalar layout. */
  lemma ScalarLayout(x: nat, a: nat, b: nat)
    requires a < 256 && b < 256
    ensures var w := x * 65536 + a * 256 + b;
            && w % 256 == b && w / 256 % 256 == a && w / 65536 == x && w % 65536 == a * 256 + b
            && w / 0x80_0000 == x / 128 && w / 0x1000_0000 == x / 4096 && w / 0x4000_0000 == x / 16384
  {
    var w := x * 65536 + a * 256 + b;
    Quotients(x * 256 + a, 256, b);
    Quotients(x, 256, a);
    Quotients(x, 65536, a * 256 + b);
    assert w / 0x80_0000 == w / 65536 / 128 && w / 0x1000_0000 == w / 65536 / 4096;
    assert w / 0x4000_0000 == w / 65536 / 16384;
  }

  /** The same in the vector layout. */
  lemma VectorLayout(x: nat, a: nat, b: nat)
    requires a < 256 && b < 512
    ensures var w := x * 0x2_0000 + a * 512 + b;
            && w % 512 == b && w / 512 % 256 == a && w / 0x2_0000 == x && w / 0x200_0000 == x / 256
            && w / 0x80_0000 == x / 64 && w / 0x1000_0000 == x / 2048 && w / 0x4000_0000 == x / 8192
  {
    var w := x * 0x2_0000 + a * 512 + b;
    Quotients(x * 256 + a, 512, b);
    Quotients(x, 256, a);
    Quotients(x, 0x2_0000, a * 512 + b);
    assert w / 0x200_0000 == w / 0x2_0000 / 256 && w / 0x80_0000 == w / 0x2_0000 / 64;
    assert w / 0x1000_0000 == w / 0x2_0000 / 2048 && w / 0x4000_0000 == w / 0x2_0000 / 8192;
  }

  /** A word in the scalar layout, by its upper half. */
  lemma ScalarDecoded(x: nat, a: nat, b: nat)
    requires a < 256 && b < 256
    ensures var f := Decoding.DecodeWord(x * 65536 + a * 256 + b);
            && (x / 128 == 0x17D ==> f == Decoding.Sop1Word(a, x % 128, b))
            && (x / 128 == 0x17E ==> f == Decoding.SopcWord(x % 128, a, b))
            && (x / 128 == 0x17F ==> f == Decoding.SoppWord(x % 128, a * 256 + b))
            && (256 <= x / 128 < 352 ==> f == Decoding.Sop2Word(x / 128 % 128, x % 128, a, b))
            && (352 <= x / 128 < 384 ==> !f.Sop2Word?)
  {
    ScalarLayout(x, a, b);
  }

  lemma VectorDecoded(x: nat, a: nat, b: nat)
    requires a < 256 && b < 512
    ensures var f := Decoding.DecodeWord(x * 0x2_0000 + a * 512 + b);
            && (x / 256 == 0x3F ==> f == Decoding.Vop1Word(a, x % 256, b))
            && (x / 256 == 0x3E ==> f == Decoding.VopcWord(x % 256, a, b))
            && (x / 256 < 0x3E ==> f == Decoding.Vop2Word(x / 256, x % 256, a, b))
  {
    VectorLayout(x, a, b);
  }

  lemma Sop2Read(hw: nat, sdst: nat, src1: nat, src0: nat)
    requires sdst < 256 && src1 < 256 && src0 < 256
    ensures var f := Decoding.DecodeWord(Sop2(hw, sdst, src1, src0));
            && (hw < 96 && sdst < 128 ==> f == Decoding.Sop2Word(hw, sdst, src1, src0))
            && (f.Sop2Word? ==> f.dst == sdst % 128 && (sdst < 128 ==> f.op == hw % 128 && hw % 128 < 96))
  {
    hide Decoding.DecodeWord;
    var op, d := SetLow(hw % 128, sdst / 128), sdst % 128;
    var x := 128 * (256 + op) + d;
    assert Sop2(hw, sdst, src1, src0) == x * 65536 + src1 * 256 + src0;
    Quotients(256 + op, 128, d);
    ScalarDecoded(x, src1, src0);
  }

  lemma Sop1Read(hw: nat, sdst: nat, src0: nat)
    requires sdst < 128 && src0 < 256
    ensures Decoding.DecodeWord(0xBE80_0000 + sdst * 65536 + hw % 256 * 256 + src0)
         == Decoding.Sop1Word(hw % 256, sdst, src0)
  {
    hide Decoding.DecodeWord;
    Quotients(0x17D, 128, sdst);
    ScalarDecoded(0x17D * 128 + sdst, hw % 256, src0);
  }

  lemma SopcRead(hw: nat, src1: nat, src0: nat)
    requires src1 < 256 && src0 < 256
    ensures Decoding.DecodeWord(0xBF00_0000 + hw % 128 * 65536 + src1 * 256 + src0)
         == Decoding.SopcWord(hw % 128, src1, src0)
  {
    hide Decoding.DecodeWord;
    Quotients(0x17E, 128, hw % 128);
    ScalarDecoded(0x17E * 128 + hw % 128, src1, src0);
  }

  lemma SoppRead(hw: nat, simm: nat)
    requires simm < 65536
    ensures Decoding.DecodeWord(Sopp(hw, simm)) == Decoding.SoppWord(hw % 128, simm)
  {
    hide Decoding.DecodeWord;
    Quotients(0x17F, 128, hw % 128);
    ScalarDecoded(0x17F * 128 + hw % 128, simm / 256, simm % 256);
  }

  lemma Vop1Read(hw: nat, dst: nat, src0: nat)
    requires dst < 256 && src0 < 512
    ensures Decoding.DecodeWord(0x7E00_0000 + dst * 0x2_0000 + hw % 256 * 512 + src0)
         == Decoding.Vop1Word(hw % 256, dst, src0)
  {
    hide Decoding.DecodeWord;
    Quotients(0x3F, 256, dst);
    VectorDecoded(0x3F * 256 + dst, hw % 256, src0);
  }

  lemma VopcRead(hw: nat, src1: nat, src0: nat)
    requires src1 < 256 && src0 < 512
    ensures Decoding.DecodeWord(0x7C00_0000 + hw % 256 * 0x2_0000 + src1 * 512 + src0)
         == Decoding.VopcWord(hw % 256, src1, src0)
  {
    hide Decoding.DecodeWord;
    Quotients(0x3E, 256, hw % 256);
    VectorDecoded(0x3E * 256 + hw % 256, src1, src0);
  }

  lemma Vop2Read(hw: nat, dst: nat, src1: nat, src0: nat)
    requires dst < 256 && src1 < 256 && src0 < 512
    ensures var f := Decoding.DecodeWord(hw % 64 * 0x200_0000 + dst * 0x2_0000 + src1 * 512 + src0);
            && (hw % 64 < 62 ==> f == Decoding.Vop2Word(hw % 64, dst, src1, src0))
            && (f.Vop2Word? ==> hw % 64 < 62)
  {
    hide Decoding.DecodeWord;
    Quotients(hw % 64, 256, dst);
    VectorDecoded(hw % 64 * 256 + dst, src1, src0);
  }

  lemma LastLong(a: Operand, b: Operand)
    ensures LiteralOf([a]) == if NeedsLiteral(a) then a.value % U32 else 0
    ensures LiteralOf([a, b]) == if NeedsLiteral(b) then b.value % U32 else LiteralOf([a])
  {
    assert [a, b][..1] == [a] && [a][..0] == [];
  }

  ghost predicate All32(mi: Inst) {
    forall k :: 0 <= k < |mi.ops| ==> Is32(mi.ops[k])
  }

  /** What the emitted literal is, given how many sources the format looks at. */
  predicate Emits(literal: nat, first: Operand, second: Operand, uses: nat) {
    if uses > 1 && NeedsLiteral(second) then literal == second.value % U32
    else uses > 0 && NeedsLiteral(first) ==> literal == first.value % U32
  }

  lemma OneReadable(op: Operand, literal: nat, gfx11: bool)
    requires NeedsLiteral(op) ==> literal == op.value % U32
    ensures ScalarReadable(op, literal, gfx11) <==> ScalarSource(op, gfx11)
    ensures VectorReadable(op, literal) <==> VectorSource(op)
  {
  }

  lemma TwoReadable(first: Operand, second: Operand, literal: nat, gfx11: bool)
    requires Emits(literal, first, second, 2)
    ensures ScalarReadable(first, literal, gfx11) && ScalarReadable(second, literal, gfx11) <==>
              ScalarSource(first, gfx11) && ScalarSource(second, gfx11) && OneLiteral(first, second)
  {
  }

  lemma ScalarPair(mi: Inst, s0: nat, s1: nat, literal: nat, gfx11: bool)
    requires |mi.ops| == MAX_OPS && mi.defs + 1 < MAX_OPS && All32(mi)
    requires Emits(literal, mi.ops[mi.defs], mi.ops[mi.defs + 1], mi.uses)
    requires s0 == ScalarField(mi.ops[mi.defs]) && (mi.uses > 1 ==> s1 == ScalarField(mi.ops[mi.defs + 1]))
    ensures var first, second := mi.ops[mi.defs], mi.ops[mi.defs + 1];
            var said := (mi.uses > 0 ==> Decoding.ReadField(s0, literal, gfx11) == Meant(first))
                        && (mi.uses > 1 ==> Decoding.ReadField(s1, literal, gfx11) == Meant(second));
            var good := (mi.uses > 0 ==> ScalarSource(first, gfx11))
                        && (mi.uses > 1 ==> ScalarSource(second, gfx11) && OneLiteral(first, second));
            said <==> good
  {
    hide ScalarField, Decoding.ReadField, Meant, ScalarReadable, ScalarSource, OneLiteral, NeedsLiteral;
    var first, second := mi.ops[mi.defs], mi.ops[mi.defs + 1];
    ScalarReadsBack(first, literal, gfx11);
    ScalarReadsBack(second, literal, gfx11);
    if mi.uses > 1 {
      TwoReadable(first, second, literal, gfx11);
    } else if mi.uses == 1 {
      OneReadable(first, literal, gfx11);
    }
  }

  lemma Sop2Says(mi: Inst, literal: nat, gfx11: bool, disp: int)
    requires |mi.ops| == MAX_OPS && mi.defs + 1 < MAX_OPS && All32(mi) && mi.fmt == SOP2
    requires mi.defs > 0 ==> !mi.ops[0].Imm?
    requires Emits(literal, mi.ops[mi.defs], mi.ops[mi.defs + 1], mi.uses)
    ensures Says(Decoding.DecodeWord(ShortWord(mi, disp)), literal, gfx11, mi) <==> Expressible(mi, gfx11)
  {
    var first, second := mi.ops[mi.defs], mi.ops[mi.defs + 1];
    var d := if mi.defs > 0 then ScalarDest(mi.ops[0]) else 0;
    var s0, s1 := ScalarField(first), if mi.uses > 1 then ScalarField(second) else 0;
    ScalarReadsBack(first, literal, gfx11);
    ScalarReadsBack(second, literal, gfx11);
    assert ShortWord(mi, disp) == Sop2(mi.hw, d, s1, s0);
    hide Decoding.DecodeWord, Decoding.ReadField, ScalarField, ScalarDest, Meant, Sop2, ScalarReadable, ScalarSource;
    hide DestReadable, OneLiteral, ShortWord;
    ScalarPair(mi, s0, s1, literal, gfx11);
    if mi.defs > 0 {
      DestReadsBack(mi.ops[0], gfx11);
    }
    Sop2Read(mi.hw, d, s1, s0);
  }

  lemma Sop1Says(mi: Inst, literal: nat, gfx11: bool, disp: int)
    requires |mi.ops| == MAX_OPS && mi.defs + 1 < MAX_OPS && All32(mi) && mi.fmt == SOP1
    requires mi.defs > 0 ==> !mi.ops[0].Imm?
    requires mi.uses > 0 && NeedsLiteral(mi.ops[mi.defs]) ==> literal == mi.ops[mi.defs].value % U32
    ensures Says(Decoding.DecodeWord(ShortWord(mi, disp)), literal, gfx11, mi) <==> Expressible(mi, gfx11)
  {
    var first := mi.ops[mi.defs];
    var d := if mi.defs > 0 then ScalarDest(mi.ops[0]) else 0;
    var s0 := if mi.uses > 0 then ScalarField(first) else 0;
    ScalarReadsBack(first, literal, gfx11);
    assert ShortWord(mi, disp) == 0xBE80_0000 + d % 128 * 65536 + mi.hw % 256 * 256 + s0;
    hide Decoding.DecodeWord, Decoding.ReadField, ScalarField, ScalarDest, Meant, ScalarReadable, ScalarSource;
    hide DestReadable, ShortWord;
    if mi.uses > 0 {
      OneReadable(first, literal, gfx11);
    }
    if mi.defs > 0 {
      DestReadsBack(mi.ops[0], gfx11);
    }
    Sop1Read(mi.hw, d % 128, s0);
  }

  lemma SopcSays(mi: Inst, literal: nat, gfx11: bool, disp: int)
    requires |mi.ops| == MAX_OPS && mi.defs == 0 && All32(mi) && mi.fmt == SOPC
    requires Emits(literal, mi.ops[0], mi.ops[1], mi.uses)
    ensures Says(Decoding.DecodeWord(ShortWord(mi, disp)), literal, gfx11, mi) <==> Expressible(mi, gfx11)
  {
    var s0, s1 := ScalarField(mi.ops[0]), if mi.uses > 1 then ScalarField(mi.ops[1]) else 0;
    ScalarReadsBack(mi.ops[0], literal, gfx11);
    ScalarReadsBack(mi.ops[1], literal, gfx11);
    assert ShortWord(mi, disp) == 0xBF00_0000 + mi.hw % 128 * 65536 + s1 * 256 + s0;
    hide Decoding.DecodeWord, Decoding.ReadField, ScalarField, Meant, ScalarReadable, ScalarSource, OneLiteral;
    hide ShortWord;
    ScalarPair(mi, s0, s1, literal, gfx11);
    SopcRead(mi.hw, s1, s0);
  }

  lemma VgprBack(op: Operand)
    ensures VectorReg(op) < 256 && (op == Vgpr(VectorReg(op)) <==> op.Vgpr? && op.reg < 256)
  {
  }

  /** The field reads as the first source exactly when it can. */
  ghost predicate ReadsFirst(mi: Inst, s0: nat, literal: nat, gfx11: bool)
    requires |mi.ops| == MAX_OPS && mi.defs + 1 < MAX_OPS
  {
    mi.uses > 0 ==>
      (Decoding.ReadField(s0, literal, gfx11) == Meant(mi.ops[mi.defs]) <==> VectorSource(mi.ops[mi.defs]))
  }

  lemma FirstRead(mi: Inst, literal: nat, gfx11: bool)
    requires |mi.ops| == MAX_OPS && mi.defs + 1 < MAX_OPS && All32(mi)
    requires mi.uses > 0 && NeedsLiteral(mi.ops[mi.defs]) ==> literal == mi.ops[mi.defs].value % U32
    ensures VectorField(mi.ops[mi.defs]) < 512 && ReadsFirst(mi, VectorField(mi.ops[mi.defs]), literal, gfx11)
  {
    hide VectorField, Meant, VectorReadable, VectorSource, Decoding.ReadField;
    VectorReadsBack(mi.ops[mi.defs], literal, gfx11);
    if mi.uses > 0 {
      OneReadable(mi.ops[mi.defs], literal, gfx11);
    }
  }

  lemma Vop1Fields(mi: Inst, literal: nat, gfx11: bool, op: nat, d: nat, s0: nat)
    requires |mi.ops| == MAX_OPS && mi.defs + 1 < MAX_OPS && mi.fmt == VOP1 && (op == mi.hw <==> mi.hw < 256)
    requires mi.defs > 0 ==> (mi.ops[0] == Vgpr(d) || mi.ops[0] == Sgpr(d) <==>
               (mi.ops[0].Vgpr? || mi.ops[0].Sgpr?) && mi.ops[0].reg < 256)
    requires ReadsFirst(mi, s0, literal, gfx11)
    ensures Says(Decoding.Vop1Word(op, d, s0), literal, gfx11, mi) <==> Expressible(mi, gfx11)
  {
    hide Decoding.ReadField, Meant, VectorSource;
  }

  lemma Vop2Fields(mi: Inst, literal: nat, gfx11: bool, op: nat, d: nat, s1: nat, s0: nat)
    requires |mi.ops| == MAX_OPS && mi.defs + 1 < MAX_OPS && mi.fmt == VOP2 && op < 62
    requires op == mi.hw <==> mi.hw < 62
    requires mi.defs > 0 ==> (mi.ops[0] == Vgpr(d) <==> mi.ops[0].Vgpr? && mi.ops[0].reg < 256)
    requires mi.uses > 1 ==>
               (mi.ops[mi.defs + 1] == Vgpr(s1) <==> mi.ops[mi.defs + 1].Vgpr? && mi.ops[mi.defs + 1].reg < 256)
    requires ReadsFirst(mi, s0, literal, gfx11)
    ensures Says(Decoding.Vop2Word(op, d, s1, s0), literal, gfx11, mi) <==> Expressible(mi, gfx11)
  {
    hide Decoding.ReadField, Meant, VectorSource;
  }

  lemma VopcFields(mi: Inst, literal: nat, gfx11: bool, op: nat, s1: nat, s0: nat)
    requires |mi.ops| == MAX_OPS && mi.defs == 0 && mi.fmt == VOPC && (op == mi.hw <==> mi.hw < 256)
    requires mi.uses > 1 ==> (mi.ops[1] == Vgpr(s1) <==> mi.ops[1].Vgpr? && mi.ops[1].reg < 256)
    requires ReadsFirst(mi, s0, literal, gfx11)
    ensures Says(Decoding.VopcWord(op, s1, s0), literal, gfx11, mi) <==> Expressible(mi, gfx11)
  {
    hide Decoding.ReadField, Meant, VectorSource;
  }

  lemma Vop1Says(mi: Inst, literal: nat, gfx11: bool, disp: int)
    requires |mi.ops| == MAX_OPS && mi.defs + 1 < MAX_OPS && All32(mi) && mi.fmt == VOP1
    requires mi.uses > 0 && NeedsLiteral(mi.ops[mi.defs]) ==> literal == mi.ops[mi.defs].value % U32
    ensures Says(Decoding.DecodeWord(ShortWord(mi, disp)), literal, gfx11, mi) <==> Expressible(mi, gfx11)
  {
    hide Decoding.DecodeWord, VectorField, Says, Expressible, ReadsFirst, All32, NeedsLiteral;
    FirstRead(mi, literal, gfx11);
    var s0 := if mi.uses > 0 then VectorField(mi.ops[mi.defs]) else 0;
    var d := if mi.defs > 0 && (mi.ops[0].Vgpr? || mi.ops[0].Sgpr?) then mi.ops[0].reg % 256 else 0;
    NothingRead(mi, literal, gfx11);
    Vop1Read(mi.hw, d, s0);
    Vop1Fields(mi, literal, gfx11, mi.hw % 256, d, s0);
  }

  lemma NothingRead(mi: Inst, literal: nat, gfx11: bool)
    requires |mi.ops| == MAX_OPS && mi.defs + 1 < MAX_OPS
    ensures mi.uses == 0 ==> ReadsFirst(mi, 0, literal, gfx11)
  {
  }

  lemma Vop2Says(mi: Inst, literal: nat, gfx11: bool, disp: int)
    requires |mi.ops| == MAX_OPS && mi.defs + 1 < MAX_OPS && All32(mi) && mi.fmt == VOP2
    requires mi.uses > 0 && NeedsLiteral(mi.ops[mi.defs]) ==> literal == mi.ops[mi.defs].value % U32
    ensures Says(Decoding.DecodeWord(ShortWord(mi, disp)), literal, gfx11, mi) <==> Expressible(mi, gfx11)
  {
    hide Decoding.DecodeWord, VectorField, VectorReg, Says, Expressible, ReadsFirst, All32, NeedsLiteral;
    FirstRead(mi, literal, gfx11);
    VgprBack(mi.ops[0]);
    VgprBack(mi.ops[mi.defs + 1]);
    var s0, s1 := VectorField(mi.ops[mi.defs]), if mi.uses > 1 then VectorReg(mi.ops[mi.defs + 1]) else 0;
    var d := if mi.defs > 0 then VectorReg(mi.ops[0]) else 0;
    Vop2Read(mi.hw, d, s1, s0);
    if mi.hw % 64 < 62 {
      Vop2Fields(mi, literal, gfx11, mi.hw % 64, d, s1, s0);
    } else {
      NotVop2(Decoding.DecodeWord(ShortWord(mi, disp)), literal, gfx11, mi);
    }
  }

  lemma NotVop2(f: Decoding.Fields, literal: nat, gfx11: bool, mi: Inst)
    requires |mi.ops| == MAX_OPS && mi.defs + 1 < MAX_OPS && mi.fmt == VOP2 && !f.Vop2Word? && mi.hw % 64 >= 62
    ensures !Says(f, literal, gfx11, mi) && !Expressible(mi, gfx11)
  {
  }

  lemma VopcSays(mi: Inst, literal: nat, gfx11: bool, disp: int)
    requires |mi.ops| == MAX_OPS && mi.defs == 0 && All32(mi) && mi.fmt == VOPC
    requires mi.uses > 0 && NeedsLiteral(mi.ops[mi.defs]) ==> literal == mi.ops[mi.defs].value % U32
    ensures Says(Decoding.DecodeWord(ShortWord(mi, disp)), literal, gfx11, mi) <==> Expressible(mi, gfx11)
  {
    hide Decoding.DecodeWord, VectorField, VectorReg, Says, Expressible, ReadsFirst, All32, NeedsLiteral;
    FirstRead(mi, literal, gfx11);
    VgprBack(mi.ops[1]);
    var s0 := if mi.uses > 0 then VectorField(mi.ops[0]) else 0;
    var s1 := if mi.uses > 1 then VectorReg(mi.ops[1]) else 0;
    NothingRead(mi, literal, gfx11);
    VopcRead(mi.hw, s1, s0);
    VopcFields(mi, literal, gfx11, mi.hw % 256, s1, s0);
  }

  lemma SoppSays(mi: Inst, literal: nat, gfx11: bool, disp: int)
    requires |mi.ops| == MAX_OPS && mi.defs + 1 < MAX_OPS && mi.fmt == SOPP
    ensures Says(Decoding.DecodeWord(ShortWord(mi, disp)), literal, gfx11, mi) <==> Expressible(mi, gfx11)
  {
    hide Decoding.DecodeWord;
    SoppRead(mi.hw, Simm(mi, disp));
  }

  /** An instruction as instruction selection makes it: 32-bit immediates, a result in a register,
      and no result for a comparison. */
  ghost predicate Usual(mi: Inst)
    requires |mi.ops| == MAX_OPS
  {
    && All32(mi) && (mi.defs > 0 ==> !mi.ops[0].Imm?)
    && (mi.fmt == SOPC || mi.fmt == VOPC ==> mi.defs == 0)
  }

  lemma SourcesEmit(mi: Inst, literal: nat)
    requires |mi.ops| == MAX_OPS && mi.defs + 1 < MAX_OPS && IsShort(mi.fmt) && mi.fmt != SOPP
    requires mi.fmt == SOPC || mi.fmt == VOPC ==> mi.defs == 0
    requires HasLiteral(Sources(mi)) ==> literal == LiteralOf(Sources(mi))
    ensures mi.fmt == SOP2 || mi.fmt == SOPC ==> Emits(literal, mi.ops[mi.defs], mi.ops[mi.defs + 1], mi.uses)
    ensures mi.fmt != SOP2 && mi.fmt != SOPC && mi.uses > 0 && NeedsLiteral(mi.ops[mi.defs]) ==>
              literal == mi.ops[mi.defs].value % U32
  {
    HasTwo(mi.ops[mi.defs], mi.ops[mi.defs + 1]);
    LastLong(mi.ops[mi.defs], mi.ops[mi.defs + 1]);
    hide HasLiteral, LiteralOf, NeedsLiteral;
  }

  /** Decoding what is emitted for an instruction of a short format gives back its opcode, its
      destination and its sources exactly when the format can express them. */
  lemma ShortSays(gfx12: bool, gfx11: bool, mi: Inst, disp: int, literal: nat)
    requires InstOk(gfx12, mi) && IsShort(mi.fmt) && Usual(mi)
    requires |Words(gfx12, mi, disp)| > 1 ==> literal == Words(gfx12, mi, disp)[1]
    ensures |Words(gfx12, mi, disp)| > 0
    ensures Says(Decoding.DecodeWord(Words(gfx12, mi, disp)[0]), literal, gfx11, mi) <==> Expressible(mi, gfx11)
  {
    HasLiteralIff(Sources(mi));
    hide Decoding.DecodeWord, Says, Expressible, ShortWord, Sources, LiteralOf, HasLiteral, All32;
    if mi.fmt == SOPP {
      SoppSays(mi, literal, gfx11, disp);
    } else {
      SourcesEmit(mi, literal);
      match mi.fmt
      case SOP2 => Sop2Says(mi, literal, gfx11, disp);
      case SOP1 => Sop1Says(mi, literal, gfx11, disp);
      case SOPC => SopcSays(mi, literal, gfx11, disp);
      case VOP1 => Vop1Says(mi, literal, gfx11, disp);
      case VOP2 => Vop2Says(mi, literal, gfx11, disp);
      case VOPC => VopcSays(mi, literal, gfx11, disp);
    }
  }

  lemma HasTwo(a: Operand, b: Operand)
    ensures HasLiteral([a]) == NeedsLiteral(a) && HasLiteral([a, b]) == (NeedsLiteral(a) || NeedsLiteral(b))
  {
    assert [a, b][1..] == [b] && [b][1..] == [] && [a][1..] == [];
  }

  predicate HasLiteral(ops: seq<Operand>) {
    ops != [] && (NeedsLiteral(ops[0]) || HasLiteral(ops[1..]))
  }

  lemma {:induction false} HasLiteralIff(ops: seq<Operand>)
    ensures HasLiteral(ops) <==> AnyLiteral(ops)
  {
    if ops != [] {
      HasLiteralIff(ops[1..]);
      assert forall k :: 0 < k < |ops| ==> ops[k] == ops[1..][k - 1];
    }
  }

  /** s_getpc, s_add with a literal, s_addc with a literal.  The literals are patched later. */
  function GaddrWords(hwPc: nat, hwAdd: nat, hwAddc: nat, reg: nat): (w: seq<nat>)
    ensures |w| == 5
  {
    [0xBE80_0000 + reg % 128 * 65536 + hwPc % 256 * 256,
     Sop2(hwAdd, reg % 256, 255, reg), 0,
     Sop2(hwAddc, (reg + 1) % 256, 255, reg + 1), 0]
  }

  /** Everything pass 2 emits for an instruction. */
  function Words(gfx12: bool, mi: Inst, disp: int): (w: seq<nat>)
    requires InstOk(gfx12, mi)
    ensures |w| == Taken(gfx12, mi)
  {
    HasLiteralIff(Sources(mi));
    if IsShort(mi.fmt) then
      if HasLiteral(Sources(mi)) then [ShortWord(mi, disp), LiteralOf(Sources(mi))] else [ShortWord(mi, disp)]
    else if mi.fmt == Long || mi.fmt == Flat then mi.long
    else if mi.fmt == Gaddr then
      if GaddrOk(mi) then GaddrWords(mi.long[0], mi.long[1], mi.long[2], mi.ops[0].reg) else []
    else if mi.fmt == Pseudo || mi.fmt == Unknown then []
    else [0]
  }

  // ---- Branches ----

  function SignExtend(x: nat): int {
    if x < 32768 then x else x - 65536
  }

  /** Where a branch word at byte address at goes. */
  function BranchGoal(at: nat, w: nat): int {
    at + 4 + 4 * SignExtend(w % 65536)
  }

  function Displacement(target: nat, at: nat): int {
    TruncDiv(target - (at + 4), 4)
  }

  /** A branch lands on its target exactly when the displacement fits 16 bits. */
  lemma BranchLands(mi: Inst, at: nat, target: nat)
    requires |mi.ops| == MAX_OPS && IsBranch(mi) && mi.defs + 1 < MAX_OPS && at % 4 == 0 && target % 4 == 0
    ensures var disp := Displacement(target, at);
            BranchGoal(at, ShortWord(mi, disp)) == target <==> -32768 <= disp <= 32767
  {
    var disp := Displacement(target, at);
    assert target == at + 4 + 4 * disp;
    assert SignExtend(disp % 65536) == disp <==> -32768 <= disp <= 32767;
  }

  // ---- Two passes over a function ----

  type Blocks = seq<seq<Inst>>

  ghost predicate BlocksOk(gfx12: bool, bs: Blocks) {
    forall b, i :: 0 <= b < |bs| && 0 <= i < |bs[b]| ==> InstOk(gfx12, bs[b][i])
  }

  /** Bytes expected and dwords taken by the first i instructions of block b and all before. */
  ghost function ExpectedTo(gfx12: bool, bs: Blocks, b: nat, i: nat): nat
    requires BlocksOk(gfx12, bs) && b <= |bs| && (i == 0 || (b < |bs| && i <= |bs[b]|))
  {
    if i > 0 then ExpectedTo(gfx12, bs, b, i - 1) + Expected(gfx12, bs[b][i - 1])
    else if b > 0 then ExpectedTo(gfx12, bs, b - 1, |bs[b - 1]|)
    else 0
  }

  ghost function TakenTo(gfx12: bool, bs: Blocks, b: nat, i: nat): nat
    requires BlocksOk(gfx12, bs) && b <= |bs| && (i == 0 || (b < |bs| && i <= |bs[b]|))
  {
    if i > 0 then TakenTo(gfx12, bs, b, i - 1) + Taken(gfx12, bs[b][i - 1])
    else if b > 0 then TakenTo(gfx12, bs, b - 1, |bs[b - 1]|)
    else 0
  }

  ghost predicate AllAgree(gfx12: bool, bs: Blocks)
    requires BlocksOk(gfx12, bs)
  {
    forall b, i :: 0 <= b < |bs| && 0 <= i < |bs[b]| ==> Agrees(gfx12, bs[b][i])
  }

  /** If the passes agree on every instruction they agree on every position. */
  lemma {:induction false} PassesAgree(gfx12: bool, bs: Blocks, b: nat, i: nat)
    requires BlocksOk(gfx12, bs) && AllAgree(gfx12, bs) && b <= |bs| && (i == 0 || (b < |bs| && i <= |bs[b]|))
    ensures ExpectedTo(gfx12, bs, b, i) == 4 * TakenTo(gfx12, bs, b, i)
    decreases b, i
  {
    hide Expected, Taken, Agrees;
    if i > 0 {
      PassesAgree(gfx12, bs, b, i - 1);
      AgreesIff(gfx12, bs[b][i - 1]);
    } else if b > 0 {
      PassesAgree(gfx12, bs, b - 1, |bs[b - 1]|);
    }
  }

  method ExpectedSize(gfx12: bool, mi: Inst) returns (n: nat)
    requires InstOk(gfx12, mi)
    ensures n == Expected(gfx12, mi)
  {
    if IsShort(mi.fmt) {
      n := 4;
      for k := 0 to mi.defs + mi.uses
        invariant !AnyLiteral(mi.ops[..k]) && n == 4
      {
        if mi.ops[k].Imm? && !FitsInline(mi.ops[k].value) {
          assert mi.ops[..mi.defs + mi.uses][k] == mi.ops[k];
          return 8;
        }
      }
    } else if mi.fmt == Long {
      n := 8;
    } else if mi.fmt == Flat {
      n := if gfx12 then 12 else 8;
    } else if mi.fmt == Gaddr {
      n := 20;
    } else if mi.fmt == Pseudo {
      n := 0;
    } else {
      n := 4;
    }
  }

  /** The offsets of the instructions of block b. */
  ghost predicate RowOk(gfx12: bool, bs: Blocks, start: nat, b: nat, row: seq<nat>)
    requires BlocksOk(gfx12, bs) && b < |bs|
  {
    |row| == |bs[b]| && forall i :: 0 <= i < |row| ==> row[i] == start + ExpectedTo(gfx12, bs, b, i)
  }

  method MeasureBlock(gfx12: bool, bs: Blocks, start: nat, b: nat, from: nat) returns (row: seq<nat>, offset: nat)
    requires BlocksOk(gfx12, bs) && b < |bs| && from == start + ExpectedTo(gfx12, bs, b, 0)
    ensures RowOk(gfx12, bs, start, b, row) && offset == start + ExpectedTo(gfx12, bs, b + 1, 0)
  {
    hide Expected, InstOk;
    row, offset := [], from;
    for i := 0 to |bs[b]|
      invariant |row| == i && offset == start + ExpectedTo(gfx12, bs, b, i)
      invariant forall j :: 0 <= j < i ==> row[j] == start + ExpectedTo(gfx12, bs, b, j)
    {
      row := row + [offset];
      var n := ExpectedSize(gfx12, bs[b][i]);
      offset := offset + n;
    }
  }

  /** Pass 1. */
  method Measure(gfx12: bool, bs: Blocks, start: nat) returns (blockOff: seq<nat>, instOff: seq<seq<nat>>)
    requires BlocksOk(gfx12, bs)
    ensures |blockOff| == |instOff| == |bs|
    ensures forall b :: 0 <= b < |bs| ==>
              blockOff[b] == start + ExpectedTo(gfx12, bs, b, 0) && RowOk(gfx12, bs, start, b, instOff[b])
  {
    hide ExpectedTo, BlocksOk, RowOk;
    blockOff, instOff := [], [];
    var offset := start;
    NothingBefore(gfx12, bs);
    for b := 0 to |bs|
      invariant |blockOff| == |instOff| == b && offset == start + ExpectedTo(gfx12, bs, b, 0)
      invariant forall c :: 0 <= c < b ==>
                  blockOff[c] == start + ExpectedTo(gfx12, bs, c, 0) && RowOk(gfx12, bs, start, c, instOff[c])
    {
      blockOff := blockOff + [offset];
      var row;
      row, offset := MeasureBlock(gfx12, bs, start, b, offset);
      instOff := instOff + [row];
    }
  }

  lemma NothingBefore(gfx12: bool, bs: Blocks)
    requires BlocksOk(gfx12, bs)
    ensures ExpectedTo(gfx12, bs, 0, 0) == 0
  {
  }

  /** The displacement pass 2 gives an instruction: for a branch, from block and instruction offset. */
  function DispOf(mi: Inst, blockOff: seq<nat>, at: nat): int
    requires |mi.ops| == MAX_OPS
  {
    if !IsBranch(mi) then 0
    else if mi.ops[0].block < |blockOff| then Displacement(blockOff[mi.ops[0].block], at)
    else mi.ops[0].block
  }

  /** The words of an instruction stand at their place in the code. */
  ghost predicate At(code: seq<nat>, pos: nat, w: seq<nat>) {
    pos + |w| <= |code| && code[pos..pos + |w|] == w
  }

  lemma AtAppend(code: seq<nat>, pos: nat, w: seq<nat>, more: seq<nat>)
    requires At(code, pos, w)
    ensures At(code + more, pos, w)
  {
    assert (code + more)[pos..pos + |w|] == code[pos..pos + |w|];
  }

  ghost predicate Shaped(gfx12: bool, bs: Blocks, instOff: seq<seq<nat>>) {
    BlocksOk(gfx12, bs) && |instOff| == |bs| && forall c :: 0 <= c < |bs| ==> |instOff[c]| == |bs[c]|
  }

  ghost function WordsAt(gfx12: bool, bs: Blocks, blockOff: seq<nat>, instOff: seq<seq<nat>>, c: nat,
      j: nat): (w: seq<nat>)
    requires Shaped(gfx12, bs, instOff) && c < |bs| && j < |bs[c]|
    ensures |w| == Taken(gfx12, bs[c][j])
  {
    Words(gfx12, bs[c][j], DispOf(bs[c][j], blockOff, instOff[c][j]))
  }

  /** Blocks before b, and the first i instructions of b, are in the code. */
  ghost predicate Encoded(gfx12: bool, bs: Blocks, base: nat, blockOff: seq<nat>, instOff: seq<seq<nat>>,
      code: seq<nat>, b: nat, i: nat)
    requires Shaped(gfx12, bs, instOff)
  {
    forall c: nat, j: nat :: c < |bs| && j < |bs[c]| && (c < b || (c == b && j < i)) ==>
      At(code, base + TakenTo(gfx12, bs, c, j), WordsAt(gfx12, bs, blockOff, instOff, c, j))
  }

  lemma EncodedMore(gfx12: bool, bs: Blocks, base: nat, blockOff: seq<nat>, instOff: seq<seq<nat>>, code: seq<nat>,
      b: nat, i: nat)
    requires Shaped(gfx12, bs, instOff)
    requires b < |bs| && i < |bs[b]| && Encoded(gfx12, bs, base, blockOff, instOff, code, b, i)
    requires |code| == base + TakenTo(gfx12, bs, b, i)
    ensures var w := WordsAt(gfx12, bs, blockOff, instOff, b, i);
            && Encoded(gfx12, bs, base, blockOff, instOff, code + w, b, i + 1)
            && |code + w| == base + TakenTo(gfx12, bs, b, i + 1)
  {
    hide At, Taken, WordsAt, InstOk;
    var w := WordsAt(gfx12, bs, blockOff, instOff, b, i);
    forall c: nat, j: nat | c < |bs| && j < |bs[c]| && (c < b || (c == b && j < i + 1))
      ensures At(code + w, base + TakenTo(gfx12, bs, c, j), WordsAt(gfx12, bs, blockOff, instOff, c, j))
    {
      if c == b && j == i {
        AtEnd(code, w);
      } else {
        AtAppend(code, base + TakenTo(gfx12, bs, c, j), WordsAt(gfx12, bs, blockOff, instOff, c, j), w);
      }
    }
  }

  lemma AtEnd(code: seq<nat>, w: seq<nat>)
    ensures At(code + w, |code|, w)
  {
  }

  /** Pass 2. */
  method EmitAll(gfx12: bool, bs: Blocks, blockOff: seq<nat>, instOff: seq<seq<nat>>, code0: seq<nat>)
    returns (code: seq<nat>)
    requires Shaped(gfx12, bs, instOff)
    ensures code0 <= code && |code| == |code0| + TakenTo(gfx12, bs, |bs|, 0)
    ensures Encoded(gfx12, bs, |code0|, blockOff, instOff, code, |bs|, 0)
  {
    hide Taken, InstOk, Words, DispOf, At;
    code := code0;
    for b := 0 to |bs|
      invariant code0 <= code && |code| == |code0| + TakenTo(gfx12, bs, b, 0)
      invariant Encoded(gfx12, bs, |code0|, blockOff, instOff, code, b, 0)
    {
      for i := 0 to |bs[b]|
        invariant code0 <= code && |code| == |code0| + TakenTo(gfx12, bs, b, i)
        invariant Encoded(gfx12, bs, |code0|, blockOff, instOff, code, b, i)
      {
        hide Encoded;
        InstSize(gfx12, bs, b, i);
        var mi := bs[b][i];
        EncodedMore(gfx12, bs, |code0|, blockOff, instOff, code, b, i);
        code := code + Words(gfx12, mi, DispOf(mi, blockOff, instOff[b][i]));
      }
    }
  }

  lemma InstSize(gfx12: bool, bs: Blocks, b: nat, i: nat)
    requires BlocksOk(gfx12, bs) && b < |bs| && i < |bs[b]|
    ensures InstOk(gfx12, bs[b][i]) && |bs[b][i].ops| == MAX_OPS
  {
  }

  /** The branch at instruction i of block b goes to the first word of the block it names. */
  ghost predicate Lands(gfx12: bool, bs: Blocks, base: nat, code: seq<nat>, b: nat, i: nat)
    requires BlocksOk(gfx12, bs) && b < |bs| && i < |bs[b]| && |bs[b][i].ops| == MAX_OPS && IsBranch(bs[b][i])
    requires bs[b][i].ops[0].block < |bs|
  {
    var pos := base + TakenTo(gfx12, bs, b, i);
    pos < |code| && BranchGoal(4 * pos, code[pos]) == 4 * (base + TakenTo(gfx12, bs, bs[b][i].ops[0].block, 0))
  }

  /** The branch displacement in dwords. */
  ghost function Reach(gfx12: bool, bs: Blocks, b: nat, i: nat, target: nat): int
    requires BlocksOk(gfx12, bs) && b < |bs| && i < |bs[b]| && target < |bs|
  {
    TakenTo(gfx12, bs, target, 0) - TakenTo(gfx12, bs, b, i) - 1
  }

  /** encode_function.  Where the passes agree, the code is as long as measured and every branch lands
      on its block exactly when its displacement fits 16 bits. */
  method EncodeFunction(gfx12: bool, bs: Blocks, code0: seq<nat>) returns (code: seq<nat>, blockOff: seq<nat>)
    requires BlocksOk(gfx12, bs)
    ensures code0 <= code && |blockOff| == |bs|
    ensures AllAgree(gfx12, bs) ==>
              && 4 * |code| == 4 * |code0| + ExpectedTo(gfx12, bs, |bs|, 0)
              && (forall b :: 0 <= b < |bs| ==> blockOff[b] == 4 * (|code0| + TakenTo(gfx12, bs, b, 0)))
              && (forall b, i ::
                    0 <= b < |bs| && 0 <= i < |bs[b]| && |bs[b][i].ops| == MAX_OPS && IsBranch(bs[b][i])
                    && bs[b][i].ops[0].block < |bs| ==>
                    (Lands(gfx12, bs, |code0|, code, b, i) <==>
                       -32768 <= Reach(gfx12, bs, b, i, bs[b][i].ops[0].block) <= 32767))
    ensures forall b, i :: 0 <= b < |bs| && 0 <= i < |bs[b]| ==>
              ToldAll(gfx12, code, |code0| + TakenTo(gfx12, bs, b, i), bs[b][i])
  {
    hide Expected, Taken, InstOk, Words, DispOf, Lands, Reach, AllAgree, Encoded, ExpectedTo, TakenTo, ToldAll;
    var instOff;
    blockOff, instOff := Measure(gfx12, bs, 4 * |code0|);
    RowsShaped(gfx12, bs, 4 * |code0|, instOff);
    code := EmitAll(gfx12, bs, blockOff, instOff, code0);
    forall b, i | 0 <= b < |bs| && 0 <= i < |bs[b]|
      ensures ToldAll(gfx12, code, |code0| + TakenTo(gfx12, bs, b, i), bs[b][i])
    {
      ToldAt(gfx12, bs, |code0|, blockOff, instOff, code, b, i);
    }
    if AllAgree(gfx12, bs) {
      PassesAgree(gfx12, bs, |bs|, 0);
      forall b | 0 <= b < |bs|
        ensures blockOff[b] == 4 * (|code0| + TakenTo(gfx12, bs, b, 0))
      {
        PassesAgree(gfx12, bs, b, 0);
      }
      forall b, i | 0 <= b < |bs| && 0 <= i < |bs[b]| && |bs[b][i].ops| == MAX_OPS && IsBranch(bs[b][i])
          && bs[b][i].ops[0].block < |bs|
        ensures Lands(gfx12, bs, |code0|, code, b, i) <==>
                  -32768 <= Reach(gfx12, bs, b, i, bs[b][i].ops[0].block) <= 32767
      {
        PassesAgree(gfx12, bs, b, i);
        BranchAt(gfx12, bs, |code0|, blockOff, instOff, code, b, i);
      }
    }
  }

  /** What the code at pos tells the hardware about the instruction put there: for a short format,
      what the instruction says exactly when that can be expressed; for a well-formed address load,
      three scalar instructions on its register pair. */
  ghost predicate Told(gfx12: bool, gfx11: bool, code: seq<nat>, pos: nat, mi: Inst) {
    && InstOk(gfx12, mi)
    && (IsShort(mi.fmt) && Usual(mi) ==>
          && pos < |code|
          && (Says(Decoding.DecodeWord(code[pos]), if pos + 1 < |code| then code[pos + 1] else 0, gfx11, mi) <==>
                Expressible(mi, gfx11)))
    && (mi.fmt == Gaddr && GaddrOpcodes(mi.long) && mi.defs > 0 && mi.uses > 0 && mi.ops[0].Sgpr?
        && mi.ops[0].reg < 101 && mi.ops[1].Gsym? ==>
          Decoding.IsAddressLoad(Decoding.Opcodes(mi.long[0], mi.long[1], mi.long[2]), code, pos, mi.ops[0].reg))
  }

  predicate GaddrOpcodes(hw: seq<nat>) {
    |hw| == 3 && hw[0] < 256 && hw[1] < 96 && hw[2] < 96 && hw[1] != hw[2]
  }

  lemma GaddrDecodes(hwPc: nat, hwAdd: nat, hwAddc: nat, reg: nat)
    requires GaddrOpcodes([hwPc, hwAdd, hwAddc]) && reg + 1 < 102
    ensures Decoding.IsAddressLoad(Decoding.Opcodes(hwPc, hwAdd, hwAddc), GaddrWords(hwPc, hwAdd, hwAddc, reg), 0, reg)
  {
    hide Decoding.DecodeWord, Sop2;
    Sop1Read(hwPc, reg, 0);
    Sop2Read(hwAdd, reg, 255, reg);
    Sop2Read(hwAddc, reg + 1, 255, reg + 1);
  }

  lemma ToldWords(gfx12: bool, gfx11: bool, code: seq<nat>, pos: nat, mi: Inst, disp: int)
    requires InstOk(gfx12, mi) && At(code, pos, Words(gfx12, mi, disp))
    ensures Told(gfx12, gfx11, code, pos, mi)
  {
    var w := Words(gfx12, mi, disp);
    hide Decoding.DecodeWord, Says, Expressible, GaddrWords, ShortWord, Sources, Usual;
    assert forall k :: 0 <= k < |w| ==> code[pos + k] == w[k];
    if IsShort(mi.fmt) && Usual(mi) {
      ShortSays(gfx12, gfx11, mi, disp, if pos + 1 < |code| then code[pos + 1] else 0);
    }
    if mi.fmt == Gaddr && GaddrOk(mi) && GaddrOpcodes(mi.long) {
      assert mi.long == [mi.long[0], mi.long[1], mi.long[2]];
      GaddrDecodes(mi.long[0], mi.long[1], mi.long[2], mi.ops[0].reg);
    }
  }

  /** On every target. */
  ghost predicate ToldAll(gfx12: bool, code: seq<nat>, pos: nat, mi: Inst) {
    forall gfx11 :: Told(gfx12, gfx11, code, pos, mi)
  }

  lemma ToldAt(gfx12: bool, bs: Blocks, base: nat, blockOff: seq<nat>, instOff: seq<seq<nat>>, code: seq<nat>, b: nat,
      i: nat)
    requires Shaped(gfx12, bs, instOff) && Encoded(gfx12, bs, base, blockOff, instOff, code, |bs|, 0)
    requires b < |bs| && i < |bs[b]|
    ensures ToldAll(gfx12, code, base + TakenTo(gfx12, bs, b, i), bs[b][i])
  {
    hide TakenTo, Words, Told, InstOk, At;
    InstSize(gfx12, bs, b, i);
    var pos := base + TakenTo(gfx12, bs, b, i);
    assert At(code, pos, WordsAt(gfx12, bs, blockOff, instOff, b, i));
    forall gfx11
      ensures Told(gfx12, gfx11, code, pos, bs[b][i])
    {
      ToldWords(gfx12, gfx11, code, pos, bs[b][i], DispOf(bs[b][i], blockOff, instOff[b][i]));
    }
  }

  lemma RowsShaped(gfx12: bool, bs: Blocks, start: nat, instOff: seq<seq<nat>>)
    requires BlocksOk(gfx12, bs) && |instOff| == |bs|
    requires forall b :: 0 <= b < |bs| ==> RowOk(gfx12, bs, start, b, instOff[b])
    ensures Shaped(gfx12, bs, instOff)
    ensures forall b, i :: 0 <= b < |bs| && 0 <= i < |bs[b]| ==> instOff[b][i] == start + ExpectedTo(gfx12, bs, b, i)
  {
    hide ExpectedTo, BlocksOk;
  }

  lemma BranchAt(gfx12: bool, bs: Blocks, base: nat, blockOff: seq<nat>, instOff: seq<seq<nat>>, code: seq<nat>, b: nat,
      i: nat)
    requires Shaped(gfx12, bs, instOff) && |bs| == |blockOff|
    requires Encoded(gfx12, bs, base, blockOff, instOff, code, |bs|, 0)
    requires b < |bs| && i < |bs[b]| && |bs[b][i].ops| == MAX_OPS && IsBranch(bs[b][i]) && bs[b][i].ops[0].block < |bs|
    requires blockOff[bs[b][i].ops[0].block] == 4 * (base + TakenTo(gfx12, bs, bs[b][i].ops[0].block, 0))
    requires instOff[b][i] == 4 * (base + TakenTo(gfx12, bs, b, i))
    ensures Lands(gfx12, bs, base, code, b, i) <==> -32768 <= Reach(gfx12, bs, b, i, bs[b][i].ops[0].block) <= 32767
  {
    hide TakenTo, ShortWord, Words, BranchGoal, Displacement, Taken, IsShort;
    var mi := bs[b][i];
    var at, target := instOff[b][i], blockOff[mi.ops[0].block];
    var pos := base + TakenTo(gfx12, bs, b, i);
    assert At(code, pos, WordsAt(gfx12, bs, blockOff, instOff, b, i));
    BranchWord(gfx12, mi, DispOf(mi, blockOff, at));
    assert code[pos] == code[pos..pos + 1][0];
    BranchLands(mi, at, target);
    DispReach(base, TakenTo(gfx12, bs, mi.ops[0].block, 0), TakenTo(gfx12, bs, b, i));
  }

  lemma DispReach(base: nat, target: nat, from: nat)
    ensures Displacement(4 * (base + target), 4 * (base + from)) == target - from - 1
  {
  }

  lemma BranchWord(gfx12: bool, mi: Inst, disp: int)
    requires InstOk(gfx12, mi) && IsBranch(mi)
    ensures Words(gfx12, mi, disp) == [ShortWord(mi, disp)]
  {
    assert Sources(mi) == [];
  }

  // ---- The patched address ----

  function Low(d: int): nat {
    d % U32
  }

  function High(d: int): nat {
    d / U32 % U32
  }

  /** s_getpc_b64, s_add_u32 and s_addc_u32 with the patched literals leave the literal's 64-bit
      address, whatever the carry. */
  lemma PatchedAddress(pc: nat, goal: nat)
    requires pc < U32 * U32 && goal < U32 * U32
    ensures var d := goal - pc;
            var sum := Low(pc) + Low(d);
            var carry := sum / U32;
            var hi := (High(pc) + High(d) + carry) % U32;
            hi * U32 + sum % U32 == goal
  {
    var d := goal - pc;
    var p0, p1, d0, d1 := pc % U32, pc / U32, d % U32, d / U32;
    assert goal == (p1 + d1) * U32 + (p0 + d0);
    var carry := (p0 + d0) / U32;
    assert goal == (p1 + d1 + carry) * U32 + (p0 + d0) % U32;
    HighWord(p1, d1, carry, goal / U32);
  }

  /** What the address load whose first word is at pos leaves in its register pair, in code loaded at
      text: s_getpc_b64 gives the address of the next instruction. */
  function Loaded(code: seq<nat>, pos: nat, text: nat): nat
    requires pos + 5 <= |code|
  {
    var pc := text + 4 * (pos + 1);
    var sum := Low(pc) + code[pos + 2];
    (High(pc) + code[pos + 4] + sum / U32) % U32 * U32 + sum % U32
  }

  /** The two literals of one address load. */
  method PatchAddress(code: array<nat>, pos: nat, text: nat, goal: nat)
    requires pos + 5 <= code.Length && text + 4 * (pos + 1) < U32 * U32 && goal < U32 * U32
    modifies code
    ensures Loaded(code[..], pos, text) == goal
    ensures forall k :: 0 <= k < code.Length && k != pos + 2 && k != pos + 4 ==> code[k] == old(code[k])
  {
    var anchor := 4 * (pos + 1);
    var d := goal - (text + anchor);
    code[(anchor + 4) / 4] := Low(d);
    code[(anchor + 12) / 4] := High(d);
    PatchedAddress(text + anchor, goal);
    assert code[..][pos + 2] == Low(d) && code[..][pos + 4] == High(d);
  }

  /** A reference from the address load at byte `anchor` - 4 to a literal. */
  datatype Fix = Fix(slot: nat, anchor: nat)

  /** The layout has lost track of the literal or of the load. */
  predicate Lost(f: Fix, lits: seq<nat>, len: nat) {
    f.slot >= |lits| || f.anchor + 12 > 4 * len
  }

  predicate IsPatched(fixes: seq<Fix>, k: nat) {
    exists i :: 0 <= i < |fixes| && (4 * k == fixes[i].anchor + 4 || 4 * k == fixes[i].anchor + 12)
  }

  /** Address loads are five words each. */
  ghost predicate FixesOk(fixes: seq<Fix>) {
    && (forall i :: 0 <= i < |fixes| ==> fixes[i].anchor % 4 == 0 && fixes[i].anchor >= 4)
    && (forall i, j :: 0 <= i < j < |fixes| ==>
          fixes[i].anchor + 20 <= fixes[j].anchor || fixes[j].anchor + 20 <= fixes[i].anchor)
  }

  /** The address load is all in the code, and leaves the address of its literal. */
  ghost predicate LoadsLiteral(code: seq<nat>, f: Fix, lits: seq<nat>, text: nat) {
    f.anchor >= 4 && f.slot < |lits| && f.anchor / 4 + 4 <= |code|
    && Loaded(code, f.anchor / 4 - 1, text) == lits[f.slot]
  }

  lemma StillLoads(code: seq<nat>, code': seq<nat>, f: Fix, lits: seq<nat>, text: nat)
    requires LoadsLiteral(code, f, lits, text) && |code'| == |code|
    requires var pos := f.anchor / 4 - 1; code'[pos + 2] == code[pos + 2] && code'[pos + 4] == code[pos + 4]
    ensures LoadsLiteral(code', f, lits, text)
  {
  }

  /** A load that is all in the first len words of the buffer is as good there. */
  lemma LoadsInside(code: seq<nat>, len: nat, f: Fix, lits: seq<nat>, text: nat)
    requires len <= |code| && f.anchor % 4 == 0 && LoadsLiteral(code, f, lits, text)
    ensures LoadsLiteral(code[..len], f, lits, text) <==> f.anchor + 16 <= 4 * len
  {
  }

  /** The patch loop over a buffer of which len words are code.  It fails exactly when a reference is
      lost.  Otherwise an address load leaves the address of its literal exactly when its second
      literal is inside the code, which the test of the loop does not ask for; no other word has
      changed. */
  method PatchAll(code: array<nat>, len: nat, fixes: seq<Fix>, lits: seq<nat>, text: nat) returns (ok: bool)
    requires len < code.Length && FixesOk(fixes) && text + 4 * code.Length < U32 * U32
    requires forall s :: 0 <= s < |lits| ==> lits[s] < U32 * U32
    modifies code
    ensures ok <==> forall i :: 0 <= i < |fixes| ==> !Lost(fixes[i], lits, len)
    ensures ok ==> forall i :: 0 <= i < |fixes| ==>
              (LoadsLiteral(code[..len], fixes[i], lits, text) <==> fixes[i].anchor + 16 <= 4 * len)
    ensures forall k :: 0 <= k < code.Length && !IsPatched(fixes, k) ==> code[k] == old(code[k])
    ensures ok ==> forall i :: 0 <= i < |fixes| && fixes[i].anchor + 16 <= 4 * len ==>
              Filled(old(code[..]), code[..len], fixes[i].anchor / 4 - 1, text, lits[fixes[i].slot])
  {
    hide LoadsLiteral, Filled;
    ghost var was := code[..];
    for n := 0 to |fixes|
      invariant forall i :: 0 <= i < n ==> !Lost(fixes[i], lits, len) && LoadsLiteral(code[..], fixes[i], lits, text)
      invariant forall k :: 0 <= k < code.Length && !IsPatched(fixes, k) ==> code[k] == old(code[k])
    {
      var f := fixes[n];
      if f.slot >= |lits| || f.anchor + 12 > 4 * len {
        assert Lost(fixes[n], lits, len);
        return false;
      }
      ghost var before := code[..];
      PatchAddress(code, f.anchor / 4 - 1, text, lits[f.slot]);
      NowLoads(code[..], f, lits, text);
      forall i | 0 <= i < n
        ensures LoadsLiteral(code[..], fixes[i], lits, text)
      {
        OthersLoad(before, code[..], fixes, n, i, lits, text);
      }
    }
    forall i | 0 <= i < |fixes|
      ensures LoadsLiteral(code[..len], fixes[i], lits, text) <==> fixes[i].anchor + 16 <= 4 * len
    {
      assert code[..][..len] == code[..len];
      LoadsInside(code[..], len, fixes[i], lits, text);
    }
    forall i | 0 <= i < |fixes| && fixes[i].anchor + 16 <= 4 * len
      ensures Filled(was, code[..len], fixes[i].anchor / 4 - 1, text, lits[fixes[i].slot])
    {
      NowFilled(was, code[..], fixes, i, len, lits, text);
    }
    ok := true;
  }

  /** Patching leaves the instructions of an address load alone. */
  lemma OpcodesStay(was: seq<nat>, now: seq<nat>, fixes: seq<Fix>, i: nat, len: nat, t: Decoding.Opcodes, reg: nat)
    requires FixesOk(fixes) && i < |fixes| && |now| == |was| && len <= |now| && fixes[i].anchor + 16 <= 4 * len
    requires forall k :: 0 <= k < |was| && !IsPatched(fixes, k) ==> now[k] == was[k]
    requires Decoding.IsAddressLoad(t, was, fixes[i].anchor / 4 - 1, reg)
    ensures Decoding.IsAddressLoad(t, now[..len], fixes[i].anchor / 4 - 1, reg)
  {
    var pos := fixes[i].anchor / 4 - 1;
    assert !IsPatched(fixes, pos) && !IsPatched(fixes, pos + 1) && !IsPatched(fixes, pos + 3);
  }

  /** If the words at pos are those of an address load, it now leaves the goal when the hardware runs
      it. */
  ghost predicate Filled(was: seq<nat>, now: seq<nat>, pos: nat, text: nat, goal: nat) {
    forall t: Decoding.Opcodes, reg: nat ::
      Decoding.IsAddressLoad(t, was, pos, reg) ==> Decoding.Leaves(t, now, pos, text, reg, goal)
  }

  lemma NowFilled(was: seq<nat>, now: seq<nat>, fixes: seq<Fix>, i: nat, len: nat, lits: seq<nat>, text: nat)
    requires FixesOk(fixes) && i < |fixes| && |now| == |was| && len <= |now| && fixes[i].anchor + 16 <= 4 * len
    requires forall k :: 0 <= k < |was| && !IsPatched(fixes, k) ==> now[k] == was[k]
    requires LoadsLiteral(now[..len], fixes[i], lits, text)
    ensures fixes[i].slot < |lits| && Filled(was, now[..len], fixes[i].anchor / 4 - 1, text, lits[fixes[i].slot])
  {
    hide Decoding.Leaves, Decoding.IsAddressLoad, Loaded;
    var f := fixes[i];
    var pos := f.anchor / 4 - 1;
    forall t: Decoding.Opcodes, reg: nat | Decoding.IsAddressLoad(t, was, pos, reg)
      ensures Decoding.Leaves(t, now[..len], pos, text, reg, lits[f.slot])
    {
      OpcodesStay(was, now, fixes, i, len, t, reg);
      LoadLeaves(now[..len], f, lits, text, t, reg);
    }
  }

  /** Run by the hardware, an address load that is patched leaves the address in its pair. */
  lemma LoadLeaves(code: seq<nat>, f: Fix, lits: seq<nat>, text: nat, t: Decoding.Opcodes, reg: nat)
    requires LoadsLiteral(code, f, lits, text) && Decoding.IsAddressLoad(t, code, f.anchor / 4 - 1, reg)
    requires f.slot < |lits|
    ensures Decoding.Leaves(t, code, f.anchor / 4 - 1, text, reg, lits[f.slot])
  {
    var pos := f.anchor / 4 - 1;
    forall s: Decoding.Scalars
      ensures var goal := lits[f.slot];
              Decoding.RunLoad(t, s, code, pos, text).regs == s.regs[reg := goal % U32][reg + 1 := goal / U32]
    {
      LoadRuns(t, s, code, pos, text, reg);
    }
  }

  lemma LoadRuns(t: Decoding.Opcodes, s: Decoding.Scalars, code: seq<nat>, pos: nat, text: nat, reg: nat)
    requires Decoding.IsAddressLoad(t, code, pos, reg) && pos + 5 <= |code|
    ensures var goal := Loaded(code, pos, text);
            Decoding.RunLoad(t, s, code, pos, text).regs == s.regs[reg := goal % U32][reg + 1 := goal / U32]
  {
    hide Decoding.DecodeWord;
    var pc := text + 4 * (pos + 1);
    var sum := Low(pc) + code[pos + 2];
    var hi := High(pc) + code[pos + 4] + sum / U32;
    Quotients(hi % U32, U32, sum % U32);
  }

  /** A load at the very end of the code, with its second literal still to come: the loop reports no
      failure, and what it leaves in the code does not load the address. */
  method CutShort(code: array<nat>, len: nat, lits: seq<nat>, text: nat) returns (ok: bool)
    requires 4 <= len < code.Length && |lits| > 0 && text + 4 * code.Length < U32 * U32
    requires forall s :: 0 <= s < |lits| ==> lits[s] < U32 * U32
    modifies code
    ensures ok && !LoadsLiteral(code[..len], Fix(0, 4 * len - 12), lits, text)
  {
    hide LoadsLiteral;
    var fixes := [Fix(0, 4 * len - 12)];
    ok := PatchAll(code, len, fixes, lits, text);
    assert fixes[0].anchor + 16 > 4 * len;
  }

  lemma NowLoads(code: seq<nat>, f: Fix, lits: seq<nat>, text: nat)
    requires f.anchor >= 4 && f.slot < |lits| && f.anchor / 4 + 4 <= |code|
    requires Loaded(code, f.anchor / 4 - 1, text) == lits[f.slot]
    ensures LoadsLiteral(code, f, lits, text)
  {
  }

  lemma OthersLoad(code: seq<nat>, code': seq<nat>, fixes: seq<Fix>, n: nat, i: nat, lits: seq<nat>, text: nat)
    requires FixesOk(fixes) && i < n < |fixes| && |code'| == |code| && LoadsLiteral(code, fixes[i], lits, text)
    requires var pos := fixes[n].anchor / 4 - 1;
             forall k :: 0 <= k < |code| && k != pos + 2 && k != pos + 4 ==> code'[k] == code[k]
    ensures LoadsLiteral(code', fixes[i], lits, text)
  {
    hide Loaded;
    StillLoads(code, code', fixes[i], lits, text);
  }

  lemma HighWord(p1: int, d1: int, carry: int, h: int)
    requires p1 + d1 + carry == h && 0 <= p1 < U32 && 0 <= h < U32
    ensures (p1 % U32 + d1 % U32 + carry) % U32 == h
  {
    assert p1 % U32 + d1 % U32 + carry == h - d1 / U32 * U32;
  }
}
