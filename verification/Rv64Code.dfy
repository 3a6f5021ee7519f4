/** RV64 instruction words: immediates and their scattered bits, 32-bit constants, jumps and their
    fixups. */
module Rv64Code {

  const W32: nat := 0x1_0000_0000
  const W64: nat := 0x1_0000_0000_0000_0000

  /** v in n-bit two's complement, p being 2^n; and back. */
  function Field(v: int, p: nat): (u: nat)
    requires p > 0
    ensures u < p
  {
    v % p
  }

  function Signed(u: nat, p: nat): int {
    if 2 * u < p then u else u - p
  }

  // ---- Formats ----

  function MkI(op: nat, rd: nat, f3: nat, rs1: nat, imm: int): nat {
    op % 128 + rd % 32 * 128 + f3 % 8 * 4096 + rs1 % 32 * 0x8000 + Field(imm, 4096) * 0x10_0000
  }

  function MkU(op: nat, rd: nat, imm: int): nat {
    op % 128 + rd % 32 * 128 + Field(imm, 0x10_0000) * 4096
  }

  function MkS(op: nat, f3: nat, rs1: nat, rs2: nat, imm: int): nat {
    var u := Field(imm, 4096);
    op % 128 + u % 32 * 128 + f3 % 8 * 4096 + rs1 % 32 * 0x8000 + rs2 % 32 * 0x10_0000 + u / 32 * 0x200_0000
  }

  function MkB(op: nat, f3: nat, rs1: nat, rs2: nat, imm: int): nat {
    var u := Field(imm, 8192);
    op % 128 + u / 2048 % 2 * 128 + u / 2 % 16 * 256 + f3 % 8 * 4096 + rs1 % 32 * 0x8000 + rs2 % 32 * 0x10_0000
    + u / 32 % 64 * 0x200_0000 + u / 4096 * 0x8000_0000
  }

  function MkJ(op: nat, rd: nat, imm: int): nat {
    var u := Field(imm, 0x20_0000);
    op % 128 + rd % 32 * 128 + u / 4096 % 256 * 4096 + u / 2048 % 2 * 0x10_0000 + u / 2 % 1024 * 0x20_0000
    + u / 0x10_0000 * 0x8000_0000
  }

  // ---- How the processor reads them (RISC-V Unprivileged ISA, section 2.3) ----

  function ImmI(w: nat): int {
    Signed(w / 0x10_0000 % 4096, 4096)
  }

  function ImmU(w: nat): int {
    Signed(w / 4096 % 0x10_0000, 0x10_0000) * 4096
  }

  function ImmS(w: nat): int {
    Signed(w / 0x200_0000 % 128 * 32 + w / 128 % 32, 4096)
  }

  function ImmB(w: nat): int {
    Signed(w / 0x8000_0000 % 2 * 4096 + w / 128 % 2 * 2048 + w / 0x200_0000 % 64 * 32 + w / 256 % 16 * 2, 8192)
  }

  function ImmJ(w: nat): int {
    Signed(w / 0x8000_0000 % 2 * 0x10_0000 + w / 4096 % 256 * 4096 + w / 0x10_0000 % 2 * 2048
           + w / 0x20_0000 % 1024 * 2, 0x20_0000)
  }

  function Opcode(w: nat): nat {
    w % 128
  }

  function Rd(w: nat): nat {
    w / 128 % 32
  }

  function Rs1(w: nat): nat {
    w / 0x8000 % 32
  }

  function Rs2(w: nat): nat {
    w / 0x10_0000 % 32
  }

  function Funct3(w: nat): nat {
    w / 4096 % 8
  }

  // A number that fits its field is read back.

  lemma Signed12(v: int)
    requires -2048 <= v < 2048
    ensures Signed(Field(v, 4096), 4096) == v
  {
    assert v % 4096 == if v >= 0 then v else v + 4096;
  }

  lemma Signed13(v: int)
    requires -4096 <= v < 4096
    ensures Signed(Field(v, 8192), 8192) == v
  {
    assert v % 8192 == if v >= 0 then v else v + 8192;
  }

  lemma Signed20(v: int)
    requires -0x8_0000 <= v < 0x8_0000
    ensures Signed(Field(v, 0x10_0000), 0x10_0000) == v
  {
    assert v % 0x10_0000 == if v >= 0 then v else v + 0x10_0000;
  }

  lemma Signed21(v: int)
    requires -0x10_0000 <= v < 0x10_0000
    ensures Signed(Field(v, 0x20_0000), 0x20_0000) == v
  {
    assert v % 0x20_0000 == if v >= 0 then v else v + 0x20_0000;
  }

  // The lowest digit of a number, and the rest.

  lemma Peel2(x: nat, d: nat, rest: nat)
    requires d < 2 && x == d + 2 * rest
    ensures x % 2 == d && x / 2 == rest
  {
  }

  lemma Peel8(x: nat, d: nat, rest: nat)
    requires d < 8 && x == d + 8 * rest
    ensures x % 8 == d && x / 8 == rest
  {
  }

  lemma Peel16(x: nat, d: nat, rest: nat)
    requires d < 16 && x == d + 16 * rest
    ensures x % 16 == d && x / 16 == rest
  {
  }

  lemma Peel32(x: nat, d: nat, rest: nat)
    requires d < 32 && x == d + 32 * rest
    ensures x % 32 == d && x / 32 == rest
  {
  }

  lemma Peel64(x: nat, d: nat, rest: nat)
    requires d < 64 && x == d + 64 * rest
    ensures x % 64 == d && x / 64 == rest
  {
  }

  lemma Peel128(x: nat, d: nat, rest: nat)
    requires d < 128 && x == d + 128 * rest
    ensures x % 128 == d && x / 128 == rest
  {
  }

  lemma Peel256(x: nat, d: nat, rest: nat)
    requires d < 256 && x == d + 256 * rest
    ensures x % 256 == d && x / 256 == rest
  {
  }

  lemma Peel1024(x: nat, d: nat, rest: nat)
    requires d < 1024 && x == d + 1024 * rest
    ensures x % 1024 == d && x / 1024 == rest
  {
  }

  lemma IRoundTrip(op: nat, rd: nat, f3: nat, rs1: nat, imm: int)
    requires op < 128 && rd < 32 && rs1 < 32 && -2048 <= imm < 2048
    ensures var w := MkI(op, rd, f3, rs1, imm);
            w < W32 && Opcode(w) == op && Rd(w) == rd && Funct3(w) == f3 % 8 && Rs1(w) == rs1 && ImmI(w) == imm
  {
    Signed12(imm);
    hide Field, Signed;
    var u := Field(imm, 4096);
    var f := f3 % 8;
    var w := MkI(op, rd, f3, rs1, imm);
    var w3 := rs1 + 32 * u;
    var w2 := f + 8 * w3;
    var w1 := rd + 32 * w2;
    Peel128(w, op, w1);
    Peel32(w1, rd, w2);
    Peel8(w2, f, w3);
    Peel32(w3, rs1, u);
    assert w / 128 / 32 == w / 4096 && w / 4096 / 8 == w / 0x8000 && w / 0x8000 / 32 == w / 0x10_0000;
  }

  lemma UFields(op: nat, rd: nat, u: nat, w: nat)
    requires op < 128 && rd < 32 && u < 0x10_0000 && w == op + rd * 128 + u * 4096
    ensures w < W32 && w % 128 == op && w / 128 % 32 == rd && w / 4096 == u
  {
    var w1 := rd + 32 * u;
    Peel128(w, op, w1);
    Peel32(w1, rd, u);
    assert w / 128 / 32 == w / 4096;
  }

  lemma URoundTrip(op: nat, rd: nat, imm: int)
    requires op < 128 && rd < 32 && -0x8_0000 <= imm < 0x8_0000
    ensures var w := MkU(op, rd, imm); w < W32 && Opcode(w) == op && Rd(w) == rd && ImmU(w) == imm * 4096
  {
    hide Field, Signed;
    Signed20(imm);
    var u := Field(imm, 0x10_0000);
    UFields(op, rd, u, MkU(op, rd, imm));
  }

  lemma SFields(op: nat, f: nat, rs1: nat, rs2: nat, lo: nat, hi: nat, w: nat)
    requires op < 128 && f < 8 && rs1 < 32 && rs2 < 32 && lo < 32 && hi < 128
    requires w == op + lo * 128 + f * 4096 + rs1 * 0x8000 + rs2 * 0x10_0000 + hi * 0x200_0000
    ensures w < W32 && w % 128 == op && w / 128 % 32 == lo && w / 4096 % 8 == f && w / 0x8000 % 32 == rs1
    ensures w / 0x10_0000 % 32 == rs2 && w / 0x200_0000 == hi
  {
    var w4 := rs2 + 32 * hi;
    var w3 := rs1 + 32 * w4;
    var w2 := f + 8 * w3;
    var w1 := lo + 32 * w2;
    Peel128(w, op, w1);
    Peel32(w1, lo, w2);
    Peel8(w2, f, w3);
    Peel32(w3, rs1, w4);
    Peel32(w4, rs2, hi);
    assert w / 128 / 32 == w / 4096 && w / 4096 / 8 == w / 0x8000;
    assert w / 0x8000 / 32 == w / 0x10_0000 && w / 0x10_0000 / 32 == w / 0x200_0000;
  }

  lemma SRoundTrip(op: nat, f3: nat, rs1: nat, rs2: nat, imm: int)
    requires op < 128 && rs1 < 32 && rs2 < 32 && -2048 <= imm < 2048
    ensures var w := MkS(op, f3, rs1, rs2, imm);
            w < W32 && Opcode(w) == op && Funct3(w) == f3 % 8 && Rs1(w) == rs1 && Rs2(w) == rs2 && ImmS(w) == imm
  {
    hide Field, Signed;
    Signed12(imm);
    var u := Field(imm, 4096);
    SFields(op, f3 % 8, rs1, rs2, u % 32, u / 32, MkS(op, f3, rs1, rs2, imm));
    assert u / 32 * 32 + u % 32 == u;
  }

  function Join13(u: nat): nat {
    u / 4096 * 4096 + u / 2048 % 2 * 2048 + u / 32 % 64 * 32 + u / 2 % 16 * 2
  }

  function Join21(u: nat): nat {
    u / 0x10_0000 * 0x10_0000 + u / 4096 % 256 * 4096 + u / 2048 % 2 * 2048 + u / 2 % 1024 * 2
  }

  /** The parts of a 13-bit offset and of a 21-bit offset. */
  lemma Parts13(u: nat)
    requires u < 8192 && u % 2 == 0
    ensures u == Join13(u)
  {
    var h := u / 2;
    var i := u / 32;
    var j := u / 2048;
    assert u == 2 * h;
    assert h / 16 == i && h == 16 * i + h % 16;
    assert i / 64 == j && i == 64 * j + i % 64;
    assert j / 2 == u / 4096 && j == 2 * (j / 2) + j % 2;
  }

  lemma Parts21(u: nat)
    requires u < 0x20_0000 && u % 2 == 0
    ensures u == Join21(u)
  {
    var h := u / 2;
    var i := u / 2048;
    var j := u / 4096;
    assert u == 2 * h;
    assert h / 1024 == i && h == 1024 * i + h % 1024;
    assert i / 2 == j && i == 2 * j + i % 2;
    assert j / 256 == u / 0x10_0000 && j == 256 * (j / 256) + j % 256;
  }

  lemma EvenField(v: int, p: nat)
    requires p in {8192, 0x20_0000} && v % 2 == 0
    ensures Field(v, p) % 2 == 0
  {
    assert if p == 8192 then v % 8192 % 2 == 0 else v % 0x20_0000 % 2 == 0;
  }

  lemma BFields(op: nat, f: nat, rs1: nat, rs2: nat, a: nat, c: nat, d: nat, e: nat, w: nat)
    requires op < 128 && f < 8 && rs1 < 32 && rs2 < 32 && a < 2 && c < 16 && d < 64 && e < 2
    requires w == op + a * 128 + c * 256 + f * 4096 + rs1 * 0x8000 + rs2 * 0x10_0000 + d * 0x200_0000 + e * 0x8000_0000
    ensures w < W32 && w % 128 == op && w / 128 % 2 == a && w / 256 % 16 == c && w / 4096 % 8 == f
    ensures w / 0x8000 % 32 == rs1
    ensures w / 0x10_0000 % 32 == rs2 && w / 0x200_0000 % 64 == d && w / 0x8000_0000 == e
  {
    var w6 := d + 64 * e;
    var w5 := rs2 + 32 * w6;
    var w4 := rs1 + 32 * w5;
    var w3 := f + 8 * w4;
    var w2 := c + 16 * w3;
    var w1 := a + 2 * w2;
    Peel128(w, op, w1);
    Peel2(w1, a, w2);
    Peel16(w2, c, w3);
    Peel8(w3, f, w4);
    Peel32(w4, rs1, w5);
    Peel32(w5, rs2, w6);
    Peel64(w6, d, e);
    assert w / 128 / 2 == w / 256 && w / 256 / 16 == w / 4096 && w / 4096 / 8 == w / 0x8000;
    assert w / 0x8000 / 32 == w / 0x10_0000 && w / 0x10_0000 / 32 == w / 0x200_0000
           && w / 0x200_0000 / 64 == w / 0x8000_0000;
  }

  lemma BWord(op: nat, f3: nat, rs1: nat, rs2: nat, imm: int, u: nat)
    requires op < 128 && rs1 < 32 && rs2 < 32 && u == Field(imm, 8192)
    ensures var w := MkB(op, f3, rs1, rs2, imm);
            && w < W32 && Opcode(w) == op && Funct3(w) == f3 % 8 && Rs1(w) == rs1 && Rs2(w) == rs2
            && ImmB(w) == Signed(Join13(u), 8192)
  {
    hide Field, Signed;
    var a, c, d, e := u / 2048 % 2, u / 2 % 16, u / 32 % 64, u / 4096;
    assert e < 2;
    BFields(op, f3 % 8, rs1, rs2, a, c, d, e, MkB(op, f3, rs1, rs2, imm));
  }

  lemma BRoundTrip(op: nat, f3: nat, rs1: nat, rs2: nat, imm: int)
    requires op < 128 && rs1 < 32 && rs2 < 32 && -4096 <= imm < 4096 && imm % 2 == 0
    ensures var w := MkB(op, f3, rs1, rs2, imm);
            w < W32 && Opcode(w) == op && Funct3(w) == f3 % 8 && Rs1(w) == rs1 && Rs2(w) == rs2 && ImmB(w) == imm
  {
    hide Field, Signed, MkB, ImmB, Opcode, Rs1, Rs2, Funct3;
    Signed13(imm);
    EvenField(imm, 8192);
    var u := Field(imm, 8192);
    Parts13(u);
    BWord(op, f3, rs1, rs2, imm, u);
  }

  predicate JumpFits(rel: int) {
    -1048576 <= rel <= 1048574 && rel % 2 == 0
  }

  /** The word reads back as a jump by exactly rel when, and only when, rel fits. */
  lemma JRoundTrip(rd: nat, rel: int)
    requires rd < 32
    ensures var w := MkJ(0x6F, rd, rel);
            w < W32 && Opcode(w) == 0x6F && Rd(w) == rd && (ImmJ(w) == rel <==> JumpFits(rel))
  {
    if JumpFits(rel) {
      Signed21(rel);
      EvenField(rel, 0x20_0000);
    }
    ImmJRange(MkJ(0x6F, rd, rel));
    var u := Field(rel, 0x20_0000);
    JumpParts(rd, u, rel);
    if JumpFits(rel) {
      Parts21(u);
    }
  }

  lemma ImmJRange(w: nat)
    ensures JumpFits(ImmJ(w))
  {
    var a, c, d, e := w / 0x8000_0000 % 2, w / 4096 % 256, w / 0x10_0000 % 2, w / 0x20_0000 % 1024;
    SignedEven(a * 0x10_0000 + c * 4096 + d * 2048 + e * 2);
  }

  lemma SignedEven(u: nat)
    requires u < 0x20_0000 && u % 2 == 0
    ensures JumpFits(Signed(u, 0x20_0000))
  {
  }

  lemma JFields(rd: nat, a: nat, c: nat, d: nat, e: nat, w: nat)
    requires rd < 32 && a < 256 && c < 2 && d < 1024 && e < 2
    requires w == 0x6F + rd * 128 + a * 4096 + c * 0x10_0000 + d * 0x20_0000 + e * 0x8000_0000
    ensures w < W32 && w % 128 == 0x6F && w / 128 % 32 == rd && w / 4096 % 256 == a && w / 0x10_0000 % 2 == c
    ensures w / 0x20_0000 % 1024 == d && w / 0x8000_0000 == e
  {
    var w4 := d + 1024 * e;
    var w3 := c + 2 * w4;
    var w2 := a + 256 * w3;
    var w1 := rd + 32 * w2;
    Peel128(w, 0x6F, w1);
    Peel32(w1, rd, w2);
    Peel256(w2, a, w3);
    Peel2(w3, c, w4);
    Peel1024(w4, d, e);
    assert w / 128 / 32 == w / 4096 && w / 4096 / 256 == w / 0x10_0000;
    assert w / 0x10_0000 / 2 == w / 0x20_0000 && w / 0x20_0000 / 1024 == w / 0x8000_0000;
  }

  lemma JumpParts(rd: nat, u: nat, rel: int)
    requires rd < 32 && u == Field(rel, 0x20_0000)
    ensures var w := MkJ(0x6F, rd, rel);
            && w < W32 && Opcode(w) == 0x6F && Rd(w) == rd
            && ImmJ(w) == Signed(Join21(u), 0x20_0000)
  {
    hide Field, Signed;
    JFields(rd, u / 4096 % 256, u / 2048 % 2, u / 2 % 1024, u / 0x10_0000, MkJ(0x6F, rd, rel));
  }

  // ---- 32-bit constants ----

  /** addi and lui on a 64-bit register held as a signed number. */
  function AddI(x: int, imm: int): int {
    Wrap(x + imm)
  }

  function Wrap(x: int): int {
    Signed(Field(x, W64), W64)
  }

  /** What one instruction word of e_li does to the register d; x0 reads as zero. */
  function StepLi(w: nat, d: nat, x: int): int {
    if Opcode(w) == 0x37 && Rd(w) == d then ImmU(w)
    else if Opcode(w) == 0x13 && Rd(w) == d then AddI(if Rs1(w) == 0 then 0 else x, ImmI(w))
    else x
  }

  function RunLi(ws: seq<nat>, d: nat, x: int): int {
    if ws == [] then x else RunLi(ws[1..], d, StepLi(ws[0], d, x))
  }

  /** e_li: one addi for a small constant, lui and addi for a large one. */
  method LoadImmediate(d: nat, v: int) returns (ws: seq<nat>)
    requires 0 < d < 32 && -0x8000_0000 <= v <= 0x7FFF_F7FF
    ensures forall x :: RunLi(ws, d, x) == v
    ensures |ws| == if -2048 <= v < 2048 || v % 4096 == 0 then 1 else 2
  {
    hide MkI, MkU, RunLi;
    if -2048 <= v < 2048 {
      ws := [MkI(0x13, d, 0, 0, v)];
      SmallConstant(d, v);
      return;
    }
    var hi := (v + 0x800) / 4096;
    var lo := v - hi * 4096;
    LargeConstant(d, hi, lo);
    ws := [MkU(0x37, d, hi)];
    if lo != 0 {
      ws := ws + [MkI(0x13, d, 0, d, lo)];
      assert ws == [MkU(0x37, d, hi), MkI(0x13, d, 0, d, lo)];
    }
  }

  lemma WrapSmall(v: int)
    requires -0x8000_0000_0000_0000 <= v < 0x8000_0000_0000_0000
    ensures Wrap(v) == v
  {
  }

  lemma RunOne(w: nat, d: nat, x: int)
    ensures RunLi([w], d, x) == StepLi(w, d, x)
  {
    assert [w][1..] == [];
  }

  lemma RunTwo(w: nat, u: nat, d: nat, x: int)
    ensures RunLi([w, u], d, x) == StepLi(u, d, StepLi(w, d, x))
  {
    var ws := [w, u];
    assert ws[1..] == [u];
    assert RunLi(ws, d, x) == RunLi(ws[1..], d, StepLi(w, d, x));
    RunOne(u, d, StepLi(w, d, x));
  }

  lemma SmallConstant(d: nat, v: int)
    requires 0 < d < 32 && -2048 <= v < 2048
    ensures forall x :: RunLi([MkI(0x13, d, 0, 0, v)], d, x) == v
  {
    hide MkI, ImmI, Wrap, Opcode, Rd, Rs1, RunLi;
    IRoundTrip(0x13, d, 0, 0, v);
    WrapSmall(v);
    forall x
      ensures RunLi([MkI(0x13, d, 0, 0, v)], d, x) == v
    {
      RunOne(MkI(0x13, d, 0, 0, v), d, x);
    }
  }

  lemma LargeConstant(d: nat, hi: int, lo: int)
    requires 0 < d < 32 && -0x8_0000 <= hi < 0x8_0000 && -2048 <= lo < 2048
    ensures forall x :: RunLi([MkU(0x37, d, hi), MkI(0x13, d, 0, d, lo)], d, x) == hi * 4096 + lo
    ensures forall x :: RunLi([MkU(0x37, d, hi)], d, x) == hi * 4096
  {
    hide MkI, MkU, ImmI, ImmU, Wrap, Opcode, Rd, Rs1, RunLi;
    URoundTrip(0x37, d, hi);
    IRoundTrip(0x13, d, 0, d, lo);
    WrapSmall(hi * 4096 + lo);
    forall x
      ensures RunLi([MkU(0x37, d, hi), MkI(0x13, d, 0, d, lo)], d, x) == hi * 4096 + lo
      ensures RunLi([MkU(0x37, d, hi)], d, x) == hi * 4096
    {
      RunTwo(MkU(0x37, d, hi), MkI(0x13, d, 0, d, lo), d, x);
      RunOne(MkU(0x37, d, hi), d, x);
    }
  }

  // ---- Jumps to blocks ----

  /** A jump emitted before its target had an address. */
  datatype Fixup = Fixup(at: nat, block: nat)

  /** Code as words, with the jumps still to be patched and the number of failures. */
  class Assembler {
    var words: seq<nat>
    var fixups: seq<Fixup>
    var errors: nat

    constructor ()
      ensures words == [] && fixups == [] && errors == 0
    {
      words, fixups, errors := [], [], 0;
    }

    /** jal_block: a jump by nothing, to be patched. */
    method JumpToBlock(block: nat)
      modifies this`words, this`fixups
      ensures words == old(words) + [MkJ(0x6F, 0, 0)] && fixups == old(fixups) + [Fixup(|old(words)|, block)]
    {
      fixups := fixups + [Fixup(|words|, block)];
      words := words + [MkJ(0x6F, 0, 0)];
    }

    /** pjal. */
    method PatchJump(at: nat, rd: nat, rel: int)
      requires at < |words| && rd < 32
      modifies this`words, this`errors
      ensures if JumpFits(rel) then words == old(words)[at := MkJ(0x6F, rd, rel)] && errors == old(errors)
              else words == old(words) && errors == old(errors) + 1
    {
      if !JumpFits(rel) {
        errors := errors + 1;
        return;
      }
      words := words[at := MkJ(0x6F, rd, rel)];
    }

    /** The loop over the fixups.  With no failure every recorded jump to a known block goes exactly
        there, and all other words are untouched. */
    method ResolveFixups(blockAt: seq<nat>)
      requires forall k :: 0 <= k < |fixups| ==> fixups[k].at < |words|
      requires forall j, k :: 0 <= j < k < |fixups| ==> fixups[j].at != fixups[k].at
      modifies this
      ensures fixups == [] && |words| == |old(words)|
      ensures errors == old(errors) <==> forall k :: 0 <= k < |old(fixups)| && old(fixups)[k].block < |blockAt| ==>
                JumpFits(4 * (blockAt[old(fixups)[k].block] - old(fixups)[k].at))
      ensures errors == old(errors) ==> forall k :: 0 <= k < |old(fixups)| && old(fixups)[k].block < |blockAt| ==>
                JumpsTo(words, old(fixups)[k].at, blockAt[old(fixups)[k].block])
      ensures forall p :: 0 <= p < |words| && (forall k :: 0 <= k < |old(fixups)| ==> old(fixups)[k].at != p) ==>
                words[p] == old(words)[p]
    {
      hide MkJ, ImmJ;
      ghost var was, before := fixups, words;
      for k := 0 to |fixups|
        modifies this`words, this`errors
        invariant fixups == was && |words| == |before| && errors >= old(errors)
        invariant errors == old(errors) <==> forall j :: 0 <= j < k && was[j].block < |blockAt| ==>
                    JumpFits(4 * (blockAt[was[j].block] - was[j].at))
        invariant errors == old(errors) ==> forall j :: 0 <= j < k && was[j].block < |blockAt| ==>
                    JumpsTo(words, was[j].at, blockAt[was[j].block])
        invariant forall p :: 0 <= p < |words| && (forall j :: 0 <= j < |was| ==> was[j].at != p) ==>
                    words[p] == before[p]
      {
        var f := fixups[k];
        if f.block < |blockAt| {
          var rel := 4 * (blockAt[f.block] - f.at);
          JRoundTrip(0, rel);
          PatchJump(f.at, 0, rel);
        }
      }
      fixups := [];
    }
  }

  /** The word at place at is a jump that lands at place goal; places count words of four bytes. */
  predicate JumpsTo(words: seq<nat>, at: nat, goal: nat) {
    at < |words| && Opcode(words[at]) == 0x6F && 4 * at + ImmJ(words[at]) == 4 * goal
  }
}
