/** The register accesses that build_dag records for an instruction, against those of the ISA, and
    when it looks at a key again after a definition. */
module ScheduleAccess {
  import opened ScheduleDag

  const MAX_VREGS: nat := 0x1_0000
  const SPEC_VCC: nat := 0
  const SPEC_EXEC: nat := 1
  const SPEC_SCC: nat := 2

  datatype Operand = Vreg(num: nat) | Sgpr(num: nat) | Vgpr(num: nat) | Special(id: nat) | Untracked

  /** The opcodes that touch more than their operands say, those that fix a place in the block, and
      the rest.  ScalarAlu is the two-operand scalar arithmetic that build_dag lists as setting SCC,
      Alu64 its 64-bit part; AddSigned is s_add_i32, AddCarry s_addc_u32, Complement s_not. */
  datatype Op = Move64 | LoadX2 | GlobalAddress | LoadX4 | VectorCompare | CondMask | ScalarCompare | ScalarAlu
              | Alu64 | AddSigned | AddCarry | Complement | CondSelect | SccBranch | ExecBranch | SaveExec
              | FullBarrier | Jump | PseudoOp | Ordinary

  datatype MInst = MInst(op: Op, defs: seq<Operand>, uses: seq<Operand>)

  /** Physical and special registers are tracked above the virtual ones. */
  function SpecKey(id: nat): nat {
    MAX_VREGS - 4 + id
  }

  function SgprKey(n: nat): nat {
    MAX_VREGS - 4 - 512 + n
  }

  function VgprKey(n: nat): nat {
    MAX_VREGS - 4 - 256 + n
  }

  function Key(o: Operand): nat
    requires !o.Untracked?
  {
    match o
    case Vreg(n) => n
    case Sgpr(n) => SgprKey(n)
    case Vgpr(n) => VgprKey(n)
    case Special(id) => SpecKey(id)
  }

  /** A use, with the second register of what may be a pair. */
  function UseOf(o: Operand): (r: seq<Access>)
    ensures forall i :: 0 <= i < |r| ==> r[i].Use?
  {
    if o.Untracked? then [] else [Use(Key(o))] + if o.Sgpr? then [Use(SgprKey(o.num + 1))] else []
  }

  function UsesOf(uses: seq<Operand>): (r: seq<Access>)
    ensures forall i :: 0 <= i < |r| ==> r[i].Use?
  {
    if uses == [] then [] else UsesOf(uses[..|uses| - 1]) + UseOf(uses[|uses| - 1])
  }

  function DefOf(o: Operand): (r: seq<Access>)
    ensures forall i :: 0 <= i < |r| ==> r[i].Def?
  {
    if o.Untracked? then [] else [Def(Key(o))]
  }

  function DefsOf(defs: seq<Operand>): seq<Access> {
    if defs == [] then [] else DefsOf(defs[..|defs| - 1]) + DefOf(defs[|defs| - 1])
  }

  /** The registers after the first that a wide scalar result takes. */
  function Wide(x: MInst): seq<Access> {
    if x.defs == [] || !x.defs[0].Sgpr? then []
    else
      var n := x.defs[0].num;
      match x.op
      case Move64 => [Def(SgprKey(n + 1))]
      case LoadX2 => [Def(SgprKey(n + 1))]
      case GlobalAddress => [Def(SgprKey(n + 1))]
      case LoadX4 => [Def(SgprKey(n + 1)), Def(SgprKey(n + 2)), Def(SgprKey(n + 3))]
      case _ => []
  }

  /** What the opcode touches without saying so. */
  function Implied(op: Op): seq<Access> {
    match op
    case GlobalAddress => [Def(SpecKey(SPEC_SCC))]
    case VectorCompare => [Def(SpecKey(SPEC_VCC))]
    case CondMask => [Use(SpecKey(SPEC_VCC))]
    case ScalarCompare => [Def(SpecKey(SPEC_SCC))]
    case ScalarAlu => [Def(SpecKey(SPEC_SCC))]
    case Alu64 => [Def(SpecKey(SPEC_SCC))]
    case CondSelect => [Use(SpecKey(SPEC_SCC))]
    case SccBranch => [Use(SpecKey(SPEC_SCC))]
    case ExecBranch => [Use(SpecKey(SPEC_EXEC))]
    case SaveExec => [Use(SpecKey(SPEC_EXEC)), Def(SpecKey(SPEC_EXEC)), Def(SpecKey(SPEC_SCC))]
    case _ => []
  }

  /** All accesses, in the order build_dag looks at them. */
  function Accesses(x: MInst): seq<Access> {
    UsesOf(x.uses) + DefsOf(x.defs) + Wide(x) + Implied(x.op)
  }

  /** Where an instruction may go.  Whatever changes EXEC is a barrier. */
  function KindOf(x: MInst): Kind {
    if x.op.FullBarrier? || x.op.SaveExec? || Special(SPEC_EXEC) in x.defs then Barrier
    else if x.op.SccBranch? || x.op.ExecBranch? || x.op.Jump? then Term
    else if x.op.PseudoOp? then Pseudo
    else Plain
  }

  // ---- The registers an instruction touches, by the ISA ----

  /** A virtual register, a physical one, or one of VCC, EXEC, SCC and M0. */
  datatype Reg = Virtual(n: nat) | Scalar(n: nat) | Vector(n: nat) | Flag(id: nat)

  function KeyOf(r: Reg): nat {
    match r
    case Virtual(n) => n
    case Scalar(n) => SgprKey(n)
    case Vector(n) => VgprKey(n)
    case Flag(id) => SpecKey(id)
  }

  /** A register that the tables have room for: a virtual one below the others' keys, a physical one of
      256, or one of the four special ones. */
  predicate Ranged(r: Reg) {
    match r
    case Virtual(n) => n < MAX_VREGS - 4 - 512
    case Scalar(n) => n < 256
    case Vector(n) => n < 256
    case Flag(id) => id < 4
  }

  /** Different registers have different keys, all inside the tables. */
  lemma KeysApart(r: Reg, r': Reg)
    requires Ranged(r) && Ranged(r')
    ensures KeyOf(r) < MAX_VREGS && (KeyOf(r) == KeyOf(r') <==> r == r')
  {
  }

  predicate Names(o: Operand, r: Reg) {
    match r
    case Virtual(n) => o == Vreg(n)
    case Scalar(n) => o == Sgpr(n)
    case Vector(n) => o == Vgpr(n)
    case Flag(id) => o == Special(id)
  }

  predicate ReadsFlag(op: Op, id: nat) {
    || (id == SPEC_SCC && (op.CondSelect? || op.SccBranch? || op.AddCarry?))
    || (id == SPEC_VCC && op.CondMask?)
    || (id == SPEC_EXEC && (op.ExecBranch? || op.SaveExec?))
  }

  predicate WritesFlag(op: Op, id: nat) {
    || (id == SPEC_SCC && (op.ScalarCompare? || op.ScalarAlu? || op.Alu64? || op.GlobalAddress? || op.SaveExec?))
    || (id == SPEC_SCC && (op.AddSigned? || op.AddCarry? || op.Complement?))
    || (id == SPEC_VCC && op.VectorCompare?)
    || (id == SPEC_EXEC && op.SaveExec?)
  }

  /** How many scalar registers the result takes. */
  function ResultSize(op: Op): nat {
    if op.LoadX4? then 4 else if op.Move64? || op.LoadX2? || op.GlobalAddress? || op.Alu64? then 2 else 1
  }

  /** r is an operand that is read, or the second register of one that may be a pair. */
  ghost predicate ReadsOperand(x: MInst, r: Reg) {
    exists i :: 0 <= i < |x.uses| && (Names(x.uses[i], r) || (r.Scalar? && r.n > 0 && x.uses[i] == Sgpr(r.n - 1)))
  }

  ghost predicate WritesOperand(x: MInst, r: Reg) {
    exists i :: 0 <= i < |x.defs| && Names(x.defs[i], r)
  }

  /** r is a further register of a wide scalar result. */
  predicate WritesFurther(x: MInst, r: Reg) {
    x.defs != [] && x.defs[0].Sgpr? && r.Scalar? && x.defs[0].num < r.n < x.defs[0].num + ResultSize(x.op)
  }

  ghost predicate IsaReads(x: MInst, r: Reg) {
    ReadsOperand(x, r) || (r.Flag? && ReadsFlag(x.op, r.id))
  }

  ghost predicate IsaWrites(x: MInst, r: Reg) {
    WritesOperand(x, r) || WritesFurther(x, r) || (r.Flag? && WritesFlag(x.op, r.id))
  }

  /** The opcodes whose use of SCC is not recorded. */
  predicate MissesFlag(op: Op) {
    op.AddSigned? || op.AddCarry? || op.Complement?
  }

  ghost predicate RecordsRead(x: MInst, k: nat) {
    exists r: Reg :: KeyOf(r) == k && (ReadsOperand(x, r) || (r.Flag? && ReadsFlag(x.op, r.id) && !MissesFlag(x.op)))
  }

  ghost predicate RecordsWrite(x: MInst, k: nat) {
    exists r: Reg :: KeyOf(r) == k &&
      (|| WritesOperand(x, r) || (WritesFurther(x, r) && !x.op.Alu64?)
       || (r.Flag? && WritesFlag(x.op, r.id) && !MissesFlag(x.op)))
  }

  lemma {:induction false} UsesHave(uses: seq<Operand>, k: nat)
    ensures Use(k) in UsesOf(uses) <==> exists i :: 0 <= i < |uses| && Use(k) in UseOf(uses[i])
  {
    if uses != [] {
      UsesHave(uses[..|uses| - 1], k);
    }
  }

  lemma {:induction false} DefsHave(defs: seq<Operand>, k: nat)
    ensures Def(k) in DefsOf(defs) <==> exists i :: 0 <= i < |defs| && Def(k) in DefOf(defs[i])
    ensures Use(k) !in DefsOf(defs)
  {
    if defs != [] {
      var n := |defs| - 1;
      DefsHave(defs[..n], k);
      hide DefOf;
      assert Def(k) in DefsOf(defs) <==> Def(k) in DefsOf(defs[..n]) || Def(k) in DefOf(defs[n]);
    }
  }

  function RegOf(o: Operand): Reg
    requires !o.Untracked?
  {
    match o
    case Vreg(n) => Virtual(n)
    case Sgpr(n) => Scalar(n)
    case Vgpr(n) => Vector(n)
    case Special(id) => Flag(id)
  }

  lemma OperandRead(x: MInst, k: nat)
    ensures Use(k) in UsesOf(x.uses) <==> exists r: Reg :: KeyOf(r) == k && ReadsOperand(x, r)
  {
    hide UsesOf;
    UsesHave(x.uses, k);
    if i :| 0 <= i < |x.uses| && Use(k) in UseOf(x.uses[i]) {
      var o := x.uses[i];
      var r := if k == Key(o) then RegOf(o) else Scalar(o.num + 1);
      assert KeyOf(r) == k && ReadsOperand(x, r);
    }
    if r: Reg :| KeyOf(r) == k && ReadsOperand(x, r) {
      var i :| 0 <= i < |x.uses| && (Names(x.uses[i], r) || (r.Scalar? && r.n > 0 && x.uses[i] == Sgpr(r.n - 1)));
      assert Use(k) in UseOf(x.uses[i]);
    }
  }

  lemma OperandWritten(x: MInst, k: nat)
    ensures Def(k) in DefsOf(x.defs) <==> exists r: Reg :: KeyOf(r) == k && WritesOperand(x, r)
  {
    hide DefsOf;
    DefsHave(x.defs, k);
    if i :| 0 <= i < |x.defs| && Def(k) in DefOf(x.defs[i]) {
      var r := RegOf(x.defs[i]);
      assert KeyOf(r) == k && WritesOperand(x, r);
    }
    if r: Reg :| KeyOf(r) == k && WritesOperand(x, r) {
      var i :| 0 <= i < |x.defs| && Names(x.defs[i], r);
      assert Def(k) in DefOf(x.defs[i]);
    }
  }

  lemma WideWritten(x: MInst, k: nat)
    ensures Def(k) in Wide(x) <==> exists r: Reg :: KeyOf(r) == k && WritesFurther(x, r) && !x.op.Alu64?
    ensures Use(k) !in Wide(x)
  {
    if Def(k) in Wide(x) {
      var r := Scalar(k - (MAX_VREGS - 4 - 512));
      assert KeyOf(r) == k && WritesFurther(x, r);
    }
  }

  lemma FlagTouched(op: Op, k: nat)
    ensures Use(k) in Implied(op) <==> exists id: nat :: SpecKey(id) == k && ReadsFlag(op, id) && !MissesFlag(op)
    ensures Def(k) in Implied(op) <==> exists id: nat :: SpecKey(id) == k && WritesFlag(op, id) && !MissesFlag(op)
  {
    var id := k - (MAX_VREGS - 4);
    if id >= 0 {
      assert SpecKey(id) == k;
    }
  }

  lemma AccessParts(x: MInst, a: Access)
    ensures a in Accesses(x) <==> a in UsesOf(x.uses) || a in DefsOf(x.defs) || a in Wide(x) || a in Implied(x.op)
    ensures a.Def? ==> a !in UsesOf(x.uses)
  {
  }

  /** What is recorded is what the ISA says the instruction reads and writes, but for the flag that
      some opcodes touch unnoticed and the second register of a 64-bit result. */
  lemma AccessesExact(x: MInst, k: nat)
    ensures Use(k) in Accesses(x) <==> RecordsRead(x, k)
    ensures Def(k) in Accesses(x) <==> RecordsWrite(x, k)
  {
    AccessParts(x, Use(k));
    AccessParts(x, Def(k));
    OperandRead(x, k);
    OperandWritten(x, k);
    WideWritten(x, k);
    DefsHave(x.defs, k);
    FlagTouched(x.op, k);
    hide Accesses, UsesOf, DefsOf, Wide, Implied, ReadsOperand, WritesOperand, WritesFurther, ReadsFlag, WritesFlag;
    if id: nat :| SpecKey(id) == k && ReadsFlag(x.op, id) && !MissesFlag(x.op) {
      assert KeyOf(Flag(id)) == k;
    }
    if id: nat :| SpecKey(id) == k && WritesFlag(x.op, id) && !MissesFlag(x.op) {
      assert KeyOf(Flag(id)) == k;
    }
  }

  /** Everything the instruction touches is recorded. */
  ghost predicate Complete(x: MInst) {
    forall r: Reg ::
      (IsaReads(x, r) ==> Use(KeyOf(r)) in Accesses(x)) && (IsaWrites(x, r) ==> Def(KeyOf(r)) in Accesses(x))
  }

  /** Something it touches has no record of its own. */
  predicate Misses(x: MInst) {
    MissesFlag(x.op) || (x.op.Alu64? && x.defs != [] && x.defs[0].Sgpr?)
  }

  /** One result, and no virtual register numbered like another register's key. */
  ghost predicate Clear(x: MInst) {
    && Emitted(x)
    && (forall o :: o in x.defs && o.Vreg? ==> o.num < MAX_VREGS - 4 - 512)
  }

  /** The records are complete exactly when none is missing. */
  lemma CompleteIff(x: MInst)
    ensures !Misses(x) ==> Complete(x)
    ensures Clear(x) ==> (Complete(x) <==> !Misses(x))
  {
    hide Accesses;
    if !Misses(x) {
      forall r: Reg
        ensures IsaReads(x, r) ==> Use(KeyOf(r)) in Accesses(x)
        ensures IsaWrites(x, r) ==> Def(KeyOf(r)) in Accesses(x)
      {
        AccessesExact(x, KeyOf(r));
      }
    } else if Clear(x) {
      var r := if MissesFlag(x.op) then Flag(SPEC_SCC) else Scalar(x.defs[0].num + 1);
      assert IsaWrites(x, r);
      AccessesExact(x, KeyOf(r));
      MissedKey(x, r);
    }
  }

  lemma MissedKey(x: MInst, r: Reg)
    requires Clear(x) && Misses(x) && r == if MissesFlag(x.op) then Flag(SPEC_SCC) else Scalar(x.defs[0].num + 1)
    ensures !RecordsWrite(x, KeyOf(r))
  {
    assert forall i :: 0 <= i < |x.defs| ==> x.defs[i] in x.defs && i == 0;
  }

  /** What instruction selection emits: at most one result, in a register, and physical registers
      below their number. */
  ghost predicate Emitted(x: MInst) {
    |x.defs| <= 1 && (x.defs == []
                      || (!x.defs[0].Special? && (x.defs[0].Sgpr? || x.defs[0].Vgpr? ==> x.defs[0].num < 256)))
  }

  /** The result is a virtual register whose number is the key of a special register that the opcode
      touches as well. */
  ghost predicate Collides(x: MInst) {
    && x.defs != [] && x.defs[0].Vreg? && !MissesFlag(x.op)
    && exists id: nat :: SpecKey(id) == x.defs[0].num && (ReadsFlag(x.op, id) || WritesFlag(x.op, id))
  }

  ghost predicate Again(acc: seq<Access>) {
    exists p, q :: 0 <= p < q < |acc| && acc[p].Def? && acc[q].key == acc[p].key
  }

  lemma UsesAside(uses: seq<Access>, rest: seq<Access>)
    requires forall i :: 0 <= i < |uses| ==> uses[i].Use?
    ensures Again(uses + rest) <==> Again(rest)
  {
    var acc, n := uses + rest, |uses|;
    if Again(acc) {
      var p, q :| 0 <= p < q < |acc| && acc[p].Def? && acc[q].key == acc[p].key;
      assert rest[p - n] == acc[p] && rest[q - n] == acc[q];
    }
    if Again(rest) {
      var p, q :| 0 <= p < q < |rest| && rest[p].Def? && rest[q].key == rest[p].key;
      assert acc[p + n] == rest[p] && acc[q + n] == rest[q];
    }
  }

  lemma {:induction false} AgainCons(a: Access, rest: seq<Access>)
    ensures Again([a] + rest) <==> Again(rest) || (a.Def? && exists i :: 0 <= i < |rest| && rest[i].key == a.key)
  {
    var acc := [a] + rest;
    if Again(acc) {
      var p, q :| 0 <= p < q < |acc| && acc[p].Def? && acc[q].key == acc[p].key;
      assert rest[q - 1] == acc[q];
      if p > 0 {
        assert rest[p - 1] == acc[p];
      }
    }
    if Again(rest) {
      var p, q :| 0 <= p < q < |rest| && rest[p].Def? && rest[q].key == rest[p].key;
      assert acc[p + 1] == rest[p] && acc[q + 1] == rest[q];
    }
    if i :| a.Def? && 0 <= i < |rest| && rest[i].key == a.key {
      assert acc[0] == a && acc[i + 1] == rest[i];
    }
  }

  /** The result cannot meet the implied registers unless it is a virtual one. */
  lemma WideAlone(x: MInst)
    requires Emitted(x)
    ensures !Again(Wide(x) + Implied(x.op))
    ensures x.defs != [] && !x.defs[0].Untracked? && !x.defs[0].Vreg? ==>
              forall i :: 0 <= i < |Wide(x) + Implied(x.op)| ==> (Wide(x) + Implied(x.op))[i].key != Key(x.defs[0])
    ensures x.defs != [] && x.defs[0].Vreg? ==> Wide(x) == []
  {
  }

  lemma OneDef(defs: seq<Operand>)
    requires |defs| <= 1
    ensures DefsOf(defs) == if defs == [] || defs[0].Untracked? then [] else [Def(Key(defs[0]))]
  {
    assert defs != [] ==> defs[..0] == [];
  }

  lemma Regroup(a: seq<Access>, b: seq<Access>, c: seq<Access>, d: seq<Access>)
    ensures a + b + c + d == a + (b + (c + d))
    ensures [] + (c + d) == c + d
  {
  }

  /** An emitted instruction is looked at again after its definition exactly when its result is such
      a virtual register. */
  lemma EmittedRevisits(x: MInst, i: Inst)
    requires Emitted(x) && i.acc == Accesses(x)
    ensures Revisits(i) <==> Collides(x)
  {
    hide UsesOf, DefsOf, Wide, Implied, Again;
    var rest := Wide(x) + Implied(x.op);
    Regroup(UsesOf(x.uses), DefsOf(x.defs), Wide(x), Implied(x.op));
    UsesAside(UsesOf(x.uses), DefsOf(x.defs) + rest);
    RevisitsAgain(i);
    WideAlone(x);
    OneDef(x.defs);
    if x.defs != [] && !x.defs[0].Untracked? {
      AgainCons(Def(Key(x.defs[0])), rest);
      if x.defs[0].Vreg? {
        assert rest == Implied(x.op);
        ImpliedKeys(x.op, x.defs[0].num);
      }
    }
  }

  lemma ImpliedKeys(op: Op, k: nat)
    ensures (exists i :: 0 <= i < |Implied(op)| && Implied(op)[i].key == k) <==>
              !MissesFlag(op) && exists id: nat :: SpecKey(id) == k && (ReadsFlag(op, id) || WritesFlag(op, id))
  {
    FlagTouched(op, k);
    hide ReadsFlag, WritesFlag;
    if i :| 0 <= i < |Implied(op)| && Implied(op)[i].key == k {
      assert Implied(op)[i] == Use(k) || Implied(op)[i] == Def(k);
    }
  }

  lemma RevisitsAgain(i: Inst)
    ensures Revisits(i) <==> Again(i.acc)
  {
  }

  /** A scalar addition into virtual register 65534 defines the key of SCC twice. */
  lemma LastVirtualRegister()
    ensures var x := MInst(ScalarAlu, [Vreg(65534)], [Vreg(1), Vreg(2)]);
            Emitted(x) && Collides(x) && Revisits(Inst(Plain, Accesses(x), false, false, 1))
  {
    var x := MInst(ScalarAlu, [Vreg(65534)], [Vreg(1), Vreg(2)]);
    assert SpecKey(SPEC_SCC) == 65534;
    EmittedRevisits(x, Inst(Plain, Accesses(x), false, false, 1));
  }
}
