/** A wave of lanes under an EXEC mask, the code the lowering emits for a nest of conditionals and loops,
    and the proof that every lane ends as if it had branched alone. */
module ExecMachine {
  import opened DivergentCode

  const MAX_SGPRS: nat := 102
  const UNSET: nat := 0xFFFF

  /** The instructions that matter here.  Lane operations act on the lanes in EXEC. */
  datatype Inst =
    | LaneOp(op: nat)
    | LaneUse(op: nat, reg: nat)
    | TakePair(reg: nat, value: nat)
    | Cmp(cond: nat)
    | SaveExec(reg: nat)
    | Xor(reg: nat)
    | Or(reg: nat)
    | Execz(dest: nat)
    | Branch(dest: nat)
    | EndPgm

  /** Scalar registers hold masks and addresses, both as sets of bits. */
  datatype Wave<L> = Wave(lanes: seq<L>, exec: set<nat>, vcc: set<nat>, sregs: map<nat, set<nat>>)

  datatype Exit = Fall | Jump(dest: nat) | Stop

  function Reg<L>(w: Wave<L>, r: nat): set<nat> {
    if r in w.sregs then w.sregs[r] else {}
  }

  /** The effect of an instruction that does not branch. */
  ghost function Effect<L>(sem: Sem<L>, i: Inst, w: Wave<L>): Wave<L> {
    match i
    case LaneOp(op) =>
      w.(lanes := seq(|w.lanes|, k requires 0 <= k < |w.lanes| =>
                        if k in w.exec then sem.op(op, w.lanes[k]) else w.lanes[k]))
    case LaneUse(op, r) =>
      w.(lanes := seq(|w.lanes|, k requires 0 <= k < |w.lanes| =>
                        if k in w.exec then sem.use(op, Reg(w, r), w.lanes[k]) else w.lanes[k]))
    case TakePair(r, v) => w.(sregs := w.sregs[r := sem.addr(v)])
    case Cmp(c) => w.(vcc := set k | k in w.exec && k < |w.lanes| && sem.holds(c, w.lanes[k]))
    case SaveExec(r) => w.(sregs := w.sregs[r := w.exec], exec := w.vcc * w.exec)
    case Xor(r) => w.(exec := (w.exec - Reg(w, r)) + (Reg(w, r) - w.exec))
    case Or(r) => w.(exec := w.exec + Reg(w, r))
    case Execz(_) => w
    case Branch(_) => w
    case EndPgm => w
  }

  function Leaves<L>(i: Inst, w: Wave<L>): Exit {
    match i
    case Execz(b) => if w.exec == {} then Jump(b) else Fall
    case Branch(b) => Jump(b)
    case EndPgm => Stop
    case _ => Fall
  }

  /** Run straight-line code up to its end or to the first branch taken. */
  ghost function RunInsts<L>(sem: Sem<L>, insts: seq<Inst>, w: Wave<L>): (Wave<L>, Exit) {
    if insts == [] then (w, Fall)
    else
      var w' := Effect(sem, insts[0], w);
      var x := Leaves(insts[0], w);
      if x == Fall then RunInsts(sem, insts[1..], w') else (w', x)
  }

  lemma {:induction false} RunAppend<L>(sem: Sem<L>, a: seq<Inst>, b: seq<Inst>, w: Wave<L>)
    ensures var (w1, x) := RunInsts(sem, a, w);
            RunInsts(sem, a + b, w) == if x == Fall then RunInsts(sem, b, w1) else (w1, x)
  {
    if a == [] {
      assert a + b == b;
    } else {
      assert (a + b)[1..] == a[1..] + b;
      if Leaves(a[0], w) == Fall {
        RunAppend(sem, a[1..], b, Effect(sem, a[0], w));
      }
    }
  }

  function Next(n: nat, b: nat, x: Exit): nat {
    match x
    case Fall => b + 1
    case Jump(t) => t
    case Stop => n
  }

  /** The wave after n blocks, from block b on; block |prog| is the end of program. */
  ghost function RunFor<L>(sem: Sem<L>, prog: seq<seq<Inst>>, b: nat, w: Wave<L>, n: nat): (nat, Wave<L>)
    decreases n
  {
    if n == 0 || b >= |prog| then (b, w)
    else
      var (w', x) := RunInsts(sem, prog[b], w);
      RunFor(sem, prog, Next(|prog|, b, x), w', n - 1)
  }

  /** Some number of blocks after block b with w, the wave is at block e with w'. */
  ghost predicate Reaches<L>(sem: Sem<L>, prog: seq<seq<Inst>>, b: nat, w: Wave<L>, e: nat, w': Wave<L>) {
    exists n: nat :: RunFor(sem, prog, b, w, n) == (e, w')
  }

  lemma {:induction false} RunForOn<L>(sem: Sem<L>, prog: seq<seq<Inst>>, b: nat, w: Wave<L>, n: nat, m: nat)
    ensures var (b', w') := RunFor(sem, prog, b, w, n);
            RunFor(sem, prog, b, w, n + m) == RunFor(sem, prog, b', w', m)
    decreases n
  {
    if n > 0 && b < |prog| {
      var (w', x) := RunInsts(sem, prog[b], w);
      RunForOn(sem, prog, Next(|prog|, b, x), w', n - 1, m);
    } else if b >= |prog| {
      assert RunFor(sem, prog, b, w, m) == (b, w);
    }
  }

  lemma RunOn<L>(sem: Sem<L>, prog: seq<seq<Inst>>, b: nat, w: Wave<L>, b1: nat, w1: Wave<L>, b2: nat, w2: Wave<L>)
    requires Reaches(sem, prog, b, w, b1, w1) && Reaches(sem, prog, b1, w1, b2, w2)
    ensures Reaches(sem, prog, b, w, b2, w2)
  {
    var n: nat :| RunFor(sem, prog, b, w, n) == (b1, w1);
    var m: nat :| RunFor(sem, prog, b1, w1, m) == (b2, w2);
    RunForOn(sem, prog, b, w, n, m);
  }

  /** What a wave reaches at the end of the program is all it can end with. */
  lemma RunEnd<L>(sem: Sem<L>, prog: seq<seq<Inst>>, b: nat, w: Wave<L>, w1: Wave<L>, w2: Wave<L>)
    requires Reaches(sem, prog, b, w, |prog|, w1) && Reaches(sem, prog, b, w, |prog|, w2)
    ensures w1 == w2
  {
    var n: nat :| RunFor(sem, prog, b, w, n) == (|prog|, w1);
    var m: nat :| RunFor(sem, prog, b, w, m) == (|prog|, w2);
    if n <= m {
      RunForOn(sem, prog, b, w, n, m - n);
    } else {
      RunForOn(sem, prog, b, w, m, n - m);
    }
  }

  lemma RunEnter<L>(sem: Sem<L>, prog: seq<seq<Inst>>, b: nat, w: Wave<L>)
    requires b < |prog|
    ensures var (w', x) := RunInsts(sem, prog[b], w); Reaches(sem, prog, b, w, Next(|prog|, b, x), w')
  {
    var (w', x) := RunInsts(sem, prog[b], w);
    assert RunFor(sem, prog, b, w, 1) == RunFor(sem, prog, Next(|prog|, b, x), w', 0);
  }

  // ---- The code of a nest ----

  /** Wide waves keep EXEC in scalar register pairs, one pair per nesting depth; narrow waves take a new
      virtual register per region. */
  datatype Target = Target(wide: bool)

  /** The registers given out so far: the next virtual register, the next scalar register, the first
      save pair of wide waves once it is fixed, and the pair taken for each address. */
  datatype Regs = Regs(spare: nat, next: nat, base: nat, at: map<nat, nat>)

  function Even(n: nat): nat {
    if n % 2 == 1 then n + 1 else n
  }

  /** The first save pair: the next free pair when the first region opens. */
  function BaseOf(x: Regs): nat {
    if x.base == UNSET then Even(x.next) else x.base
  }

  /** The save pair of a depth, clamped to the last pair. */
  function DepthReg(base: nat, depth: nat): nat {
    if base + depth * 2 + 1 >= MAX_SGPRS then MAX_SGPRS - 2 else base + depth * 2
  }

  /** Virtual registers are numbered after the scalar ones. */
  function SaveReg(t: Target, depth: nat, spare: Regs): nat {
    if t.wide then DepthReg(BaseOf(spare), depth) else MAX_SGPRS + spare.spare
  }

  /** There is a scalar pair left to take. */
  predicate HasPair(spare: Regs) {
    Even(spare.next) + 1 < MAX_SGPRS
  }

  function PairOf(spare: Regs, v: nat): nat {
    if v in spare.at then spare.at[v] else UNSET
  }

  function OpInsts(spare: Regs, op: Op): seq<Inst> {
    match op
    case Lane(i) => [LaneOp(i)]
    case Take(v) => if HasPair(spare) then [TakePair(Even(spare.next), v)] else []
    case With(i, v) => [LaneUse(i, PairOf(spare, v))]
  }

  function AfterOp(spare: Regs, op: Op): Regs {
    if op.Take? && HasPair(spare)
    then spare.(next := Even(spare.next) + 2, at := spare.at[op.value := Even(spare.next)])
    else spare
  }

  /** The registers given out after the operations of a block, and the instructions for them. */
  function OpsRegs(spare: Regs, ops: seq<Op>): Regs {
    if ops == [] then spare else AfterOp(OpsRegs(spare, ops[..|ops| - 1]), ops[|ops| - 1])
  }

  function OpsInsts(spare: Regs, ops: seq<Op>): seq<Inst> {
    if ops == [] then []
    else OpsInsts(spare, ops[..|ops| - 1]) + OpInsts(OpsRegs(spare, ops[..|ops| - 1]), ops[|ops| - 1])
  }

  /** After a region has opened. */
  function SpareNext(t: Target, spare: Regs): Regs {
    if t.wide then spare.(base := BaseOf(spare)) else spare.(spare := spare.spare + 1)
  }

  /** After a nest. */
  function SpareAfter(t: Target, code: Code, spare: Regs): Regs {
    match code
    case Done => spare
    case Step(op, rest) => SpareAfter(t, rest, AfterOp(spare, op))
    case IfThen(_, yes, rest) => SpareAfter(t, rest, SpareAfter(t, yes, SpareNext(t, spare)))
    case IfElse(_, yes, no, rest) => SpareAfter(t, rest, SpareAfter(t, no, SpareAfter(t, yes, SpareNext(t, spare))))
    case While(head, _, body, rest) => SpareAfter(t, rest, SpareAfter(t, body, SpareNext(t, OpsRegs(spare, head))))
  }

  /** The machine blocks of a nest: pre is already in the first block, numbered first; fin closes
      the last one. */
  function Lower(t: Target, code: Code, pre: seq<Inst>, first: nat, depth: nat, spare: Regs,
      fin: seq<Inst>): (r: seq<seq<Inst>>)
    ensures |r| == Size(code)
  {
    match code
    case Done => [pre + fin]
    case Step(op, rest) => Lower(t, rest, pre + OpInsts(spare, op), first, depth, AfterOp(spare, op), fin)
    case IfThen(c, yes, rest) =>
      var r := SaveReg(t, depth, spare);
      var f1 := SpareNext(t, spare);
      var m := first + 1 + Size(yes);
      [pre + [Cmp(c), SaveExec(r), Execz(m)]]
      + Lower(t, yes, [], first + 1, depth + 1, f1, [])
      + Lower(t, rest, [Or(r)], m, depth, SpareAfter(t, yes, f1), fin)
    case IfElse(c, yes, no, rest) =>
      var r := SaveReg(t, depth, spare);
      var f1 := SpareNext(t, spare);
      var f2 := SpareAfter(t, yes, f1);
      var e := first + 1 + Size(yes);
      var m := e + Size(no);
      [pre + [Cmp(c), SaveExec(r), Execz(e)]]
      + Lower(t, yes, [], first + 1, depth + 1, f1, [])
      + Lower(t, no, [Xor(r), Execz(m)], e, depth + 1, f2, [])
      + Lower(t, rest, [Or(r)], m, depth, SpareAfter(t, no, f2), fin)
    case While(head, c, body, rest) =>
      var x := OpsRegs(spare, head);
      var r := SaveReg(t, depth, x);
      var f1 := SpareNext(t, x);
      var m := first + 2 + Size(body);
      [pre] + [OpsInsts(spare, head) + [Cmp(c), SaveExec(r), Execz(m)]]
      + Lower(t, body, [], first + 2, depth + 1, f1, [Or(r), Branch(first + 1)])
      + Lower(t, rest, [Or(r)], m, depth, SpareAfter(t, body, f1), fin)
  }

  /** The register an operation writes. */
  function Taken(spare: Regs, op: Op): set<nat> {
    if op.Take? && HasPair(spare) then {Even(spare.next)} else {}
  }

  function TakenOps(spare: Regs, ops: seq<Op>): set<nat> {
    if ops == [] then {}
    else TakenOps(spare, ops[..|ops| - 1]) + Taken(OpsRegs(spare, ops[..|ops| - 1]), ops[|ops| - 1])
  }

  /** The scalar registers a nest writes, to save EXEC or for an address. */
  ghost function Saves(t: Target, code: Code, depth: nat, spare: Regs): set<nat> {
    match code
    case Done => {}
    case Step(op, rest) => Taken(spare, op) + Saves(t, rest, depth, AfterOp(spare, op))
    case IfThen(_, yes, rest) =>
      var f1 := SpareNext(t, spare);
      {SaveReg(t, depth, spare)} + Saves(t, yes, depth + 1, f1) + Saves(t, rest, depth, SpareAfter(t, yes, f1))
    case IfElse(_, yes, no, rest) =>
      var f1 := SpareNext(t, spare);
      var f2 := SpareAfter(t, yes, f1);
      {SaveReg(t, depth, spare)} + Saves(t, yes, depth + 1, f1) + Saves(t, no, depth + 1, f2)
      + Saves(t, rest, depth, SpareAfter(t, no, f2))
    case While(head, _, body, rest) =>
      var x := OpsRegs(spare, head);
      var f1 := SpareNext(t, x);
      TakenOps(spare, head) + {SaveReg(t, depth, x)} + Saves(t, body, depth + 1, f1)
      + Saves(t, rest, depth, SpareAfter(t, body, f1))
  }

  /** Nothing inside an arm writes the save register of the region around it. */
  ghost predicate Distinct(t: Target, code: Code, depth: nat, spare: Regs) {
    match code
    case Done => true
    case Step(op, rest) => Distinct(t, rest, depth, AfterOp(spare, op))
    case IfThen(_, yes, rest) =>
      var f1 := SpareNext(t, spare);
      && SaveReg(t, depth, spare) !in Saves(t, yes, depth + 1, f1)
      && Distinct(t, yes, depth + 1, f1) && Distinct(t, rest, depth, SpareAfter(t, yes, f1))
    case IfElse(_, yes, no, rest) =>
      var f1 := SpareNext(t, spare);
      var f2 := SpareAfter(t, yes, f1);
      && SaveReg(t, depth, spare) !in Saves(t, yes, depth + 1, f1) + Saves(t, no, depth + 1, f2)
      && Distinct(t, yes, depth + 1, f1) && Distinct(t, no, depth + 1, f2)
      && Distinct(t, rest, depth, SpareAfter(t, no, f2))
    case While(head, _, body, rest) =>
      var x := OpsRegs(spare, head);
      var f1 := SpareNext(t, x);
      && SaveReg(t, depth, x) !in Saves(t, body, depth + 1, f1)
      && Distinct(t, body, depth + 1, f1) && Distinct(t, rest, depth, SpareAfter(t, body, f1))
  }

  // ---- Addresses that are still where they were taken ----

  /** The values of good whose pairs have not been written. */
  ghost function Spared(spare: Regs, good: set<nat>, written: set<nat>): set<nat> {
    set v | v in good && PairOf(spare, v) !in written
  }

  ghost function GoodAfter(spare: Regs, op: Op, good: set<nat>): set<nat> {
    if op.Take? then Spared(spare, good, Taken(spare, op)) + {op.value} else good
  }

  ghost predicate OpFed(spare: Regs, op: Op, good: set<nat>) {
    match op
    case Lane(_) => true
    case Take(v) => HasPair(spare) && v !in spare.at
    case With(_, v) => v in good
  }

  ghost function GoodOps(spare: Regs, ops: seq<Op>, good: set<nat>): set<nat> {
    if ops == [] then good
    else GoodAfter(OpsRegs(spare, ops[..|ops| - 1]), ops[|ops| - 1], GoodOps(spare, ops[..|ops| - 1], good))
  }

  ghost predicate OpsFed(spare: Regs, ops: seq<Op>, good: set<nat>) {
    ops == []
    || (OpsFed(spare, ops[..|ops| - 1], good)
        && OpFed(OpsRegs(spare, ops[..|ops| - 1]), ops[|ops| - 1], GoodOps(spare, ops[..|ops| - 1], good)))
  }

  /** The scalar registers that the rounds of a loop write. */
  ghost function LoopWrites(t: Target, head: seq<Op>, body: Code, depth: nat, spare: Regs): set<nat> {
    var x := OpsRegs(spare, head);
    TakenOps(spare, head) + {SaveReg(t, depth, x)} + Saves(t, body, depth + 1, SpareNext(t, x))
  }

  /** Every address used is one of good, or taken before in the nest, and no save or other address has
      been written over it: good are the values that can still be used.  What a loop uses of good, it
      uses in every round. */
  ghost predicate Fed(t: Target, code: Code, depth: nat, spare: Regs, good: set<nat>) {
    match code
    case Done => true
    case Step(op, rest) => OpFed(spare, op, good) && Fed(t, rest, depth, AfterOp(spare, op), GoodAfter(spare, op, good))
    case IfThen(_, yes, rest) =>
      var f1 := SpareNext(t, spare);
      var g1 := Spared(spare, good, {SaveReg(t, depth, spare)});
      && Fed(t, yes, depth + 1, f1, g1)
      && Fed(t, rest, depth, SpareAfter(t, yes, f1), Spared(spare, g1, Saves(t, yes, depth + 1, f1)))
    case IfElse(_, yes, no, rest) =>
      var f1 := SpareNext(t, spare);
      var f2 := SpareAfter(t, yes, f1);
      var g1 := Spared(spare, good, {SaveReg(t, depth, spare)});
      var g2 := Spared(spare, g1, Saves(t, yes, depth + 1, f1));
      && Fed(t, yes, depth + 1, f1, g1) && Fed(t, no, depth + 1, f2, g2)
      && Fed(t, rest, depth, SpareAfter(t, no, f2), Spared(spare, g2, Saves(t, no, depth + 1, f2)))
    case While(head, _, body, rest) =>
      var x := OpsRegs(spare, head);
      var f1 := SpareNext(t, x);
      var g0 := Spared(spare, good, LoopWrites(t, head, body, depth, spare));
      var g1 := Spared(x, GoodOps(spare, head, g0), {SaveReg(t, depth, x)});
      && OpsFed(spare, head, g0) && Fed(t, body, depth + 1, f1, g1)
      && Fed(t, rest, depth, SpareAfter(t, body, f1), g1)
  }

  /** The good values are in their pairs. */
  ghost predicate Holds<L>(sem: Sem<L>, spare: Regs, good: set<nat>, w: Wave<L>) {
    forall v :: v in good ==> v in spare.at && Reg(w, spare.at[v]) == sem.addr(v)
  }

  /** later has every pair of spare, and maybe more. */
  ghost predicate SameAt(spare: Regs, later: Regs) {
    forall v :: v in spare.at ==> v in later.at && later.at[v] == spare.at[v]
  }

  lemma NextSameAt(t: Target, spare: Regs)
    ensures SameAt(spare, SpareNext(t, spare))
  {
  }

  lemma SameAtTwice(a: Regs, b: Regs, c: Regs)
    requires SameAt(a, b) && SameAt(b, c)
    ensures SameAt(a, c)
  {
  }

  /** A value is taken once, so no nest moves it. */
  lemma {:induction false} FedSameAt(t: Target, code: Code, depth: nat, spare: Regs, good: set<nat>)
    requires Fed(t, code, depth, spare, good)
    ensures SameAt(spare, SpareAfter(t, code, spare))
    decreases code
  {
    hide SameAt, Saves, Spared, SaveReg, SpareNext, GoodAfter;
    match code
    case Done => SameAtSelf(spare);
    case Step(op, rest) =>
      OpSameAt(spare, op, good);
      FedSameAt(t, rest, depth, AfterOp(spare, op), GoodAfter(spare, op, good));
      SameAtTwice(spare, AfterOp(spare, op), SpareAfter(t, rest, AfterOp(spare, op)));
    case IfThen(_, yes, rest) =>
      var f1 := SpareNext(t, spare);
      var f2 := SpareAfter(t, yes, f1);
      var g1 := Spared(spare, good, {SaveReg(t, depth, spare)});
      NextSameAt(t, spare);
      FedSameAt(t, yes, depth + 1, f1, g1);
      SameAtTwice(spare, f1, f2);
      FedSameAt(t, rest, depth, f2, Spared(spare, g1, Saves(t, yes, depth + 1, f1)));
      SameAtTwice(spare, f2, SpareAfter(t, rest, f2));
    case IfElse(_, yes, no, rest) =>
      var f1 := SpareNext(t, spare);
      var f2 := SpareAfter(t, yes, f1);
      var f3 := SpareAfter(t, no, f2);
      var g1 := Spared(spare, good, {SaveReg(t, depth, spare)});
      var g2 := Spared(spare, g1, Saves(t, yes, depth + 1, f1));
      NextSameAt(t, spare);
      FedSameAt(t, yes, depth + 1, f1, g1);
      SameAtTwice(spare, f1, f2);
      FedSameAt(t, no, depth + 1, f2, g2);
      SameAtTwice(spare, f2, f3);
      FedSameAt(t, rest, depth, f3, Spared(spare, g2, Saves(t, no, depth + 1, f2)));
      SameAtTwice(spare, f3, SpareAfter(t, rest, f3));
    case While(head, _, body, rest) =>
      hide OpsRegs, GoodOps, OpsFed, LoopWrites;
      var x := OpsRegs(spare, head);
      var f1 := SpareNext(t, x);
      var f2 := SpareAfter(t, body, f1);
      var g0 := Spared(spare, good, LoopWrites(t, head, body, depth, spare));
      var g1 := Spared(x, GoodOps(spare, head, g0), {SaveReg(t, depth, x)});
      OpsSameAt(spare, head, g0);
      NextSameAt(t, x);
      SameAtTwice(spare, x, f1);
      FedSameAt(t, body, depth + 1, f1, g1);
      SameAtTwice(spare, f1, f2);
      FedSameAt(t, rest, depth, f2, g1);
      SameAtTwice(spare, f2, SpareAfter(t, rest, f2));
  }

  lemma {:induction false} OpsSameAt(spare: Regs, ops: seq<Op>, good: set<nat>)
    requires OpsFed(spare, ops, good)
    ensures SameAt(spare, OpsRegs(spare, ops))
  {
    hide SameAt, OpFed, AfterOp, GoodAfter;
    if ops == [] {
      SameAtSelf(spare);
    } else {
      var n := |ops| - 1;
      var x := OpsRegs(spare, ops[..n]);
      OpsSameAt(spare, ops[..n], good);
      OpSameAt(x, ops[n], GoodOps(spare, ops[..n], good));
      SameAtTwice(spare, x, AfterOp(x, ops[n]));
    }
  }

  lemma SameAtSelf(spare: Regs)
    ensures SameAt(spare, spare)
  {
  }

  lemma OpSameAt(spare: Regs, op: Op, good: set<nat>)
    requires OpFed(spare, op, good)
    ensures SameAt(spare, AfterOp(spare, op))
  {
  }

  /** Values whose pairs were not written are still there. */
  lemma HoldsOn<L>(sem: Sem<L>, spare: Regs, later: Regs, good: set<nat>, written: set<nat>, w: Wave<L>, w': Wave<L>)
    requires Holds(sem, spare, good, w) && SameAt(spare, later)
    requires forall r: nat :: r !in written ==> Reg(w', r) == Reg(w, r)
    ensures Holds(sem, later, Spared(spare, good, written), w')
  {
  }

  // ---- Every lane as if alone ----

  /** From w to w': the active lanes ran code, the others and EXEC are as before, and only registers
      of saves were written. */
  ghost predicate Ran<L>(sem: Sem<L>, code: Code, saves: set<nat>, w: Wave<L>, w': Wave<L>) {
    && |w'.lanes| == |w.lanes| && w'.exec == w.exec
    && (forall k :: 0 <= k < |w.lanes| ==>
          w'.lanes[k] == if k in w.exec then Eval(sem, code, w.lanes[k]) else w.lanes[k])
    && (forall r: nat :: r !in saves ==> Reg(w', r) == Reg(w, r))
  }

  /** Every active lane leaves every loop. */
  ghost predicate AllStop<L>(sem: Sem<L>, code: Code, w: Wave<L>) {
    forall k: nat :: k in w.exec && k < |w.lanes| ==> Stops(sem, code, w.lanes[k])
  }

  lemma RanIdle<L>(sem: Sem<L>, code: Code, saves: set<nat>, w: Wave<L>)
    requires w.exec == {}
    ensures Ran(sem, code, saves, w, w)
  {
  }

  /** The end of a branch block. */
  ghost function Masked<L>(sem: Sem<L>, c: nat, r: nat, w: Wave<L>): Wave<L> {
    Effect(sem, SaveExec(r), Effect(sem, Cmp(c), w))
  }

  lemma RunHead<L>(sem: Sem<L>, c: nat, r: nat, f: nat, w: Wave<L>)
    ensures var w2 := Masked(sem, c, r, w);
            RunInsts(sem, [Cmp(c), SaveExec(r), Execz(f)], w) == (w2, if w2.exec == {} then Jump(f) else Fall)
  {
    var w1 := Effect(sem, Cmp(c), w);
    RunCons(sem, Cmp(c), [SaveExec(r), Execz(f)], w);
    RunCons(sem, SaveExec(r), [Execz(f)], w1);
    RunCons(sem, Execz(f), [], Effect(sem, SaveExec(r), w1));
    assert [Cmp(c)] + ([SaveExec(r)] + ([Execz(f)] + [])) == [Cmp(c), SaveExec(r), Execz(f)];
  }

  lemma RunCons<L>(sem: Sem<L>, i: Inst, rest: seq<Inst>, w: Wave<L>)
    ensures RunInsts(sem, [i] + rest, w)
         == if Leaves(i, w) == Fall then RunInsts(sem, rest, Effect(sem, i, w)) else (Effect(sem, i, w), Leaves(i, w))
  {
    assert ([i] + rest)[1..] == rest;
  }

  lemma RunFlip<L>(sem: Sem<L>, r: nat, m: nat, w: Wave<L>)
    ensures var w2 := Effect(sem, Xor(r), w);
            RunInsts(sem, [Xor(r), Execz(m)], w) == (w2, if w2.exec == {} then Jump(m) else Fall)
  {
    RunCons(sem, Xor(r), [Execz(m)], w);
    RunCons(sem, Execz(m), [], Effect(sem, Xor(r), w));
    assert [Xor(r)] + ([Execz(m)] + []) == [Xor(r), Execz(m)];
  }

  lemma RunOne<L>(sem: Sem<L>, i: Inst, w: Wave<L>)
    requires Leaves(i, w) == Fall
    ensures RunInsts(sem, [i], w) == (Effect(sem, i, w), Fall)
  {
    assert [i][1..] == [];
  }

  lemma MaskedFacts<L>(sem: Sem<L>, c: nat, r: nat, w: Wave<L>)
    ensures var w2 := Masked(sem, c, r, w);
            && w2.lanes == w.lanes && Reg(w2, r) == w.exec && w2.exec <= w.exec
            && (forall k: nat :: k < |w.lanes| ==> (k in w2.exec <==> k in w.exec && sem.holds(c, w.lanes[k])))
            && (forall q: nat :: q != r ==> Reg(w2, q) == Reg(w, q))
  {
  }

  lemma UnfoldThen(t: Target, c: nat, yes: Code, rest: Code, depth: nat, spare: Regs)
    ensures var r, f1 := SaveReg(t, depth, spare), SpareNext(t, spare);
            && Saves(t, IfThen(c, yes, rest), depth, spare)
                 == {r} + Saves(t, yes, depth + 1, f1) + Saves(t, rest, depth, SpareAfter(t, yes, f1))
            && (Distinct(t, IfThen(c, yes, rest), depth, spare) ==>
                  && r !in Saves(t, yes, depth + 1, f1)
                  && Distinct(t, yes, depth + 1, f1) && Distinct(t, rest, depth, SpareAfter(t, yes, f1)))
  {
    hide SaveReg, SpareNext, SpareAfter;
  }

  lemma UnfoldElse(t: Target, c: nat, yes: Code, no: Code, rest: Code, depth: nat, spare: Regs)
    ensures var r, f1 := SaveReg(t, depth, spare), SpareNext(t, spare);
            var f2 := SpareAfter(t, yes, f1);
            var f3 := SpareAfter(t, no, f2);
            && Saves(t, IfElse(c, yes, no, rest), depth, spare) ==
               {r} + Saves(t, yes, depth + 1, f1) + Saves(t, no, depth + 1, f2) + Saves(t, rest, depth, f3)
            && (Distinct(t, IfElse(c, yes, no, rest), depth, spare) ==>
                  && r !in Saves(t, yes, depth + 1, f1) + Saves(t, no, depth + 1, f2)
                  && Distinct(t, yes, depth + 1, f1) && Distinct(t, no, depth + 1, f2) && Distinct(t, rest, depth, f3))
  {
    hide SaveReg, SpareNext, SpareAfter;
  }

  /** The machine code of an if and where its parts lie. */
  lemma LowerThenParts(t: Target, c: nat, yes: Code, rest: Code, pre: seq<Inst>, first: nat, depth: nat, spare: Regs,
      fin: seq<Inst>)
    ensures var r, f1, m := SaveReg(t, depth, spare), SpareNext(t, spare), first + 1 + Size(yes);
            Lower(t, IfThen(c, yes, rest), pre, first, depth, spare, fin) ==
            [pre + [Cmp(c), SaveExec(r), Execz(m)]]
            + Lower(t, yes, [], first + 1, depth + 1, f1, [])
            + Lower(t, rest, [Or(r)], m, depth, SpareAfter(t, yes, f1), fin)
  {
    hide SaveReg, SpareNext, SpareAfter, OpsRegs, OpsInsts, Size, OpInsts, AfterOp;
  }

  lemma LowerElseParts(t: Target, c: nat, yes: Code, no: Code, rest: Code, pre: seq<Inst>, first: nat, depth: nat,
      spare: Regs, fin: seq<Inst>)
    ensures var r, f1, e := SaveReg(t, depth, spare), SpareNext(t, spare), first + 1 + Size(yes);
            var f2 := SpareAfter(t, yes, f1);
            var m := e + Size(no);
            Lower(t, IfElse(c, yes, no, rest), pre, first, depth, spare, fin) ==
            [pre + [Cmp(c), SaveExec(r), Execz(e)]]
            + Lower(t, yes, [], first + 1, depth + 1, f1, [])
            + Lower(t, no, [Xor(r), Execz(m)], e, depth + 1, f2, [])
            + Lower(t, rest, [Or(r)], m, depth, SpareAfter(t, no, f2), fin)
  {
    hide SaveReg, SpareNext, SpareAfter, OpsRegs, OpsInsts, Size, OpInsts, AfterOp;
  }

  lemma LowerWhileParts(t: Target, head: seq<Op>, c: nat, body: Code, rest: Code, pre: seq<Inst>, first: nat,
      depth: nat, spare: Regs, fin: seq<Inst>)
    ensures var x := OpsRegs(spare, head);
            var r, f1, m := SaveReg(t, depth, x), SpareNext(t, x), first + 2 + Size(body);
            Lower(t, While(head, c, body, rest), pre, first, depth, spare, fin) ==
            [pre] + [OpsInsts(spare, head) + [Cmp(c), SaveExec(r), Execz(m)]]
            + Lower(t, body, [], first + 2, depth + 1, f1, [Or(r), Branch(first + 1)])
            + Lower(t, rest, [Or(r)], m, depth, SpareAfter(t, body, f1), fin)
  {
    hide SaveReg, SpareNext, SpareAfter, OpsRegs, OpsInsts, Size, OpInsts, AfterOp;
  }

  lemma UnfoldWhile(t: Target, head: seq<Op>, c: nat, body: Code, rest: Code, depth: nat, spare: Regs, good: set<nat>)
    ensures var x := OpsRegs(spare, head);
            var r, f1, ws := SaveReg(t, depth, x), SpareNext(t, x), LoopWrites(t, head, body, depth, spare);
            var g0 := Spared(spare, good, ws);
            var g1 := Spared(x, GoodOps(spare, head, g0), {r});
            var code := While(head, c, body, rest);
            && Saves(t, code, depth, spare) == ws + Saves(t, rest, depth, SpareAfter(t, body, f1))
            && ws == TakenOps(spare, head) + {r} + Saves(t, body, depth + 1, f1)
            && (Distinct(t, code, depth, spare) ==>
                  && r !in Saves(t, body, depth + 1, f1)
                  && Distinct(t, body, depth + 1, f1) && Distinct(t, rest, depth, SpareAfter(t, body, f1)))
            && (Fed(t, code, depth, spare, good) ==>
                  && OpsFed(spare, head, g0) && Fed(t, body, depth + 1, f1, g1)
                  && Fed(t, rest, depth, SpareAfter(t, body, f1), g1))
  {
    hide SaveReg, SpareNext, SpareAfter, OpsRegs, TakenOps, GoodOps, OpsFed, Spared;
  }

  /** The branch block and the then-region, up to the false target. */
  lemma {:induction false} ThenPart<L(!new)>(sem: Sem<L>, prog: seq<seq<Inst>>, t: Target, c: nat, r: nat, yes: Code,
      pre: seq<Inst>, first: nat, depth: nat, spare: Regs, good: set<nat>, w: Wave<L>, w1: Wave<L>)
      returns (w3: Wave<L>)
    requires first < |prog| && prog[first] == pre + [Cmp(c), SaveExec(r), Execz(first + 1 + Size(yes))]
    requires Placed(prog, first + 1, Lower(t, yes, [], first + 1, depth, spare, []))
    requires RunInsts(sem, pre, w) == (w1, Fall) && Distinct(t, yes, depth, spare)
    requires Fed(t, yes, depth, spare, good) && Holds(sem, spare, good, Masked(sem, c, r, w1))
    requires Settled(sem, yes) && AllStop(sem, yes, Masked(sem, c, r, w1))
    ensures Reaches(sem, prog, first, w, first + 1 + Size(yes), w3)
    ensures Ran(sem, yes, Saves(t, yes, depth, spare), Masked(sem, c, r, w1), w3)
    decreases yes, 2
  {
    hide Ran, Reaches, RunInsts, Placed, Lower, Saves, Distinct, Masked, Fed, Holds, Settled, AllStop;
    var f := first + 1 + Size(yes);
    var w2 := Masked(sem, c, r, w1);
    RunAppend(sem, pre, [Cmp(c), SaveExec(r), Execz(f)], w);
    RunHead(sem, c, r, f, w1);
    RunEnter(sem, prog, first, w);
    if w2.exec == {} {
      w3 := w2;
      RanIdle(sem, yes, Saves(t, yes, depth, spare), w2);
    } else {
      RunNothing(sem, w2);
      w3 := Region(sem, prog, t, yes, [], first + 1, depth, spare, good, [], w2, w2);
      RunNothing(sem, w3);
      RunOn(sem, prog, first, w, first + 1, w2, f, w3);
    }
  }

  lemma RunNothing<L>(sem: Sem<L>, w: Wave<L>)
    ensures RunInsts(sem, [], w) == (w, Fall)
  {
  }

  lemma {:induction false} FlipFirst(t: Target, no: Code, pre: seq<Inst>, at: nat, depth: nat, spare: Regs)
    returns (tail: seq<Inst>)
    ensures |Lower(t, no, pre, at, depth, spare, [])| > 0
    ensures Lower(t, no, pre, at, depth, spare, [])[0] == pre + tail
    decreases no
  {
    match no
    case Done =>
      tail := [];
    case Step(op, rest) =>
      var u := FlipFirst(t, rest, pre + OpInsts(spare, op), at, depth, AfterOp(spare, op));
      tail := OpInsts(spare, op) + u;
      assert pre + OpInsts(spare, op) + u == pre + tail;
    case IfThen(c, yes, rest) =>
      tail := [Cmp(c), SaveExec(SaveReg(t, depth, spare)), Execz(at + 1 + Size(yes))];
    case IfElse(c, yes, no', rest) =>
      tail := [Cmp(c), SaveExec(SaveReg(t, depth, spare)), Execz(at + 1 + Size(yes))];
    case While(_, _, _, _) =>
      tail := [];
      assert pre + [] == pre;
  }

  /** The else-region with its mask flip, up to the merge. */
  lemma {:induction false} ElsePart<L(!new)>(sem: Sem<L>, prog: seq<seq<Inst>>, t: Target, r: nat, no: Code, e: nat,
      depth: nat, spare: Regs, good: set<nat>, w: Wave<L>) returns (w5: Wave<L>)
    requires Placed(prog, e, Lower(t, no, [Xor(r), Execz(e + Size(no))], e, depth, spare, []))
    requires Distinct(t, no, depth, spare)
    requires Fed(t, no, depth, spare, good) && Holds(sem, spare, good, Effect(sem, Xor(r), w))
    requires Settled(sem, no) && AllStop(sem, no, Effect(sem, Xor(r), w))
    ensures Reaches(sem, prog, e, w, e + Size(no), w5)
    ensures Ran(sem, no, Saves(t, no, depth, spare), Effect(sem, Xor(r), w), w5)
    decreases no, 2
  {
    hide Ran, Reaches, RunInsts, Placed, Lower, Saves, Distinct, Effect, Fed, Holds, Settled, AllStop;
    var m := e + Size(no);
    var pre := [Xor(r), Execz(m)];
    var w4 := Effect(sem, Xor(r), w);
    RunFlip(sem, r, m, w);
    if w4.exec == {} {
      var tail := FlipFirst(t, no, pre, e, depth, spare);
      PlacedHead(prog, e, Lower(t, no, pre, e, depth, spare, []));
      RunAppend(sem, pre, tail, w);
      RunEnter(sem, prog, e, w);
      w5 := w4;
      RanIdle(sem, no, Saves(t, no, depth, spare), w4);
    } else {
      w5 := Region(sem, prog, t, no, pre, e, depth, spare, good, [], w, w4);
      RunNothing(sem, w5);
    }
  }

  /** The wave runs the nest from its first block, is w' at the end of its last one, and runs fin. */
  ghost predicate Through<L>(sem: Sem<L>, prog: seq<seq<Inst>>, code: Code, first: nat, fin: seq<Inst>, w: Wave<L>,
      w': Wave<L>) {
    var (w2, x) := RunInsts(sem, fin, w');
    Reaches(sem, prog, first, w, Next(|prog|, first + Size(code) - 1, x), w2)
  }

  /** A nest of regions leaves every active lane as if it had branched alone, and EXEC and the save
      registers of the regions around it as they were. */
  lemma {:induction false} Region<L(!new)>(sem: Sem<L>, prog: seq<seq<Inst>>, t: Target, code: Code, pre: seq<Inst>,
      first: nat, depth: nat, spare: Regs, good: set<nat>, fin: seq<Inst>, w: Wave<L>, w1: Wave<L>)
      returns (w': Wave<L>)
    requires Placed(prog, first, Lower(t, code, pre, first, depth, spare, fin)) && Distinct(t, code, depth, spare)
    requires Fed(t, code, depth, spare, good) && Holds(sem, spare, good, w1)
    requires Settled(sem, code) && AllStop(sem, code, w1)
    requires RunInsts(sem, pre, w) == (w1, Fall)
    ensures Through(sem, prog, code, first, fin, w, w')
    ensures Ran(sem, code, Saves(t, code, depth, spare), w1, w')
    decreases code, 1
  {
    match code
    case Done => w' := RegionDone(sem, prog, t, pre, first, depth, spare, fin, w, w1);
    case Step(op, rest) => w' := RegionStep(sem, prog, t, op, rest, pre, first, depth, spare, good, fin, w, w1);
    case IfThen(c, yes, rest) =>
      w' := RegionThen(sem, prog, t, c, yes, rest, pre, first, depth, spare, good, fin, w, w1);
    case IfElse(c, yes, no, rest) =>
      w' := RegionElse(sem, prog, t, c, yes, no, rest, pre, first, depth, spare, good, fin, w, w1);
    case While(head, c, body, rest) =>
      w' := RegionWhile(sem, prog, t, head, c, body, rest, pre, first, depth, spare, good, fin, w, w1);
  }

  /** The lanes and registers after one operation. */
  ghost function OpEffect<L>(sem: Sem<L>, spare: Regs, op: Op, w: Wave<L>): Wave<L> {
    var insts := OpInsts(spare, op);
    if insts == [] then w else Effect(sem, insts[0], w)
  }

  lemma OpRuns<L>(sem: Sem<L>, spare: Regs, op: Op, w: Wave<L>)
    ensures RunInsts(sem, OpInsts(spare, op), w) == (OpEffect(sem, spare, op, w), Fall)
  {
    var insts := OpInsts(spare, op);
    if insts == [] {
      RunNothing(sem, w);
    } else {
      assert insts == [insts[0]];
      RunOne(sem, insts[0], w);
    }
  }

  lemma OpLanes<L>(sem: Sem<L>, spare: Regs, op: Op, good: set<nat>, w: Wave<L>)
    requires OpFed(spare, op, good) && Holds(sem, spare, good, w)
    ensures var w' := OpEffect(sem, spare, op, w);
            && |w'.lanes| == |w.lanes| && w'.exec == w.exec
            && (forall k :: 0 <= k < |w.lanes| ==>
                  w'.lanes[k] == if k in w.exec then Act(sem, op, w.lanes[k]) else w.lanes[k])
            && (forall r: nat :: r !in Taken(spare, op) ==> Reg(w', r) == Reg(w, r))
            && (op.Take? ==> Reg(w', Even(spare.next)) == sem.addr(op.value))
  {
  }

  lemma OpHolds<L>(sem: Sem<L>, spare: Regs, op: Op, good: set<nat>, w: Wave<L>)
    requires OpFed(spare, op, good) && Holds(sem, spare, good, w)
    ensures Holds(sem, AfterOp(spare, op), GoodAfter(spare, op, good), OpEffect(sem, spare, op, w))
  {
    OpLanes(sem, spare, op, good, w);
    hide OpEffect;
    if op.Take? {
      OpSameAt(spare, op, good);
      HoldsOn(sem, spare, AfterOp(spare, op), good, Taken(spare, op), w, OpEffect(sem, spare, op, w));
    }
  }

  lemma {:induction false} RegionStep<L(!new)>(sem: Sem<L>, prog: seq<seq<Inst>>, t: Target, op: Op, rest: Code,
      pre: seq<Inst>, first: nat, depth: nat, spare: Regs, good: set<nat>, fin: seq<Inst>, w: Wave<L>, w1: Wave<L>)
      returns (w': Wave<L>)
    requires Placed(prog, first, Lower(t, Step(op, rest), pre, first, depth, spare, fin))
    requires Distinct(t, Step(op, rest), depth, spare)
    requires Fed(t, Step(op, rest), depth, spare, good) && Holds(sem, spare, good, w1)
    requires Settled(sem, Step(op, rest)) && AllStop(sem, Step(op, rest), w1)
    requires RunInsts(sem, pre, w) == (w1, Fall)
    ensures Through(sem, prog, Step(op, rest), first, fin, w, w')
    ensures Ran(sem, Step(op, rest), Saves(t, Step(op, rest), depth, spare), w1, w')
    decreases Step(op, rest), 0
  {
    hide Reaches, Placed, OpEffect, OpInsts, AfterOp, Taken, Holds, OpFed, GoodAfter, Act, RunInsts;
    var w2 := OpEffect(sem, spare, op, w1);
    OpRuns(sem, spare, op, w1);
    OpHolds(sem, spare, op, good, w1);
    OpLanes(sem, spare, op, good, w1);
    RunAppend(sem, pre, OpInsts(spare, op), w);
    w' := Region(sem, prog, t, rest, pre + OpInsts(spare, op), first, depth, AfterOp(spare, op),
                 GoodAfter(spare, op, good), fin, w, w2);
  }

  lemma MaskedHolds<L>(sem: Sem<L>, t: Target, c: nat, r: nat, spare: Regs, good: set<nat>, w: Wave<L>)
    requires Holds(sem, spare, good, w)
    ensures Holds(sem, SpareNext(t, spare), Spared(spare, good, {r}), Masked(sem, c, r, w))
  {
    MaskedFacts(sem, c, r, w);
    NextSameAt(t, spare);
    hide Masked;
    HoldsOn(sem, spare, SpareNext(t, spare), good, {r}, w, Masked(sem, c, r, w));
  }

  /** After an arm, and whatever is done to EXEC then, the spared values are still there. */
  lemma ArmHolds<L>(sem: Sem<L>, t: Target, arm: Code, depth: nat, start: Regs, spare: Regs, good: set<nat>, w: Wave<L>,
      w': Wave<L>, i: Inst)
    requires Holds(sem, spare, good, w) && Fed(t, arm, depth, spare, good)
    requires Ran(sem, arm, Saves(t, arm, depth, spare), w, w')
    requires SameAt(start, spare) && (forall v :: v in good ==> v in start.at) && (i.Or? || i.Xor?)
    ensures Holds(sem, SpareAfter(t, arm, spare), Spared(start, good, Saves(t, arm, depth, spare)), Effect(sem, i, w'))
  {
    FedSameAt(t, arm, depth, spare, good);
    hide Fed, SpareAfter, Saves;
    assert Spared(start, good, Saves(t, arm, depth, spare)) == Spared(spare, good, Saves(t, arm, depth, spare));
    HoldsOn(sem, spare, SpareAfter(t, arm, spare), good, Saves(t, arm, depth, spare), w, Effect(sem, i, w'));
  }

  lemma HoldsKnown<L>(sem: Sem<L>, spare: Regs, good: set<nat>, written: set<nat>, w: Wave<L>)
    requires Holds(sem, spare, good, w)
    ensures forall v :: v in Spared(spare, good, written) ==> v in good && v in spare.at
  {
  }

  lemma FedThen(t: Target, c: nat, yes: Code, rest: Code, depth: nat, spare: Regs, good: set<nat>)
    requires Fed(t, IfThen(c, yes, rest), depth, spare, good)
    ensures var f1 := SpareNext(t, spare);
            var g1 := Spared(spare, good, {SaveReg(t, depth, spare)});
            && Fed(t, yes, depth + 1, f1, g1)
            && Fed(t, rest, depth, SpareAfter(t, yes, f1), Spared(spare, g1, Saves(t, yes, depth + 1, f1)))
  {
  }

  lemma FedElse(t: Target, c: nat, yes: Code, no: Code, rest: Code, depth: nat, spare: Regs, good: set<nat>)
    requires Fed(t, IfElse(c, yes, no, rest), depth, spare, good)
    ensures var f1 := SpareNext(t, spare);
            var f2 := SpareAfter(t, yes, f1);
            var g1 := Spared(spare, good, {SaveReg(t, depth, spare)});
            var g2 := Spared(spare, g1, Saves(t, yes, depth + 1, f1));
            && Fed(t, yes, depth + 1, f1, g1) && Fed(t, no, depth + 1, f2, g2)
            && Fed(t, rest, depth, SpareAfter(t, no, f2), Spared(spare, g2, Saves(t, no, depth + 1, f2)))
  {
  }

  lemma {:induction false} RegionThen<L(!new)>(sem: Sem<L>, prog: seq<seq<Inst>>, t: Target, c: nat, yes: Code,
      rest: Code, pre: seq<Inst>, first: nat, depth: nat, spare: Regs, good: set<nat>, fin: seq<Inst>, w: Wave<L>,
      w1: Wave<L>)
      returns (w': Wave<L>)
    requires Placed(prog, first, Lower(t, IfThen(c, yes, rest), pre, first, depth, spare, fin))
    requires Distinct(t, IfThen(c, yes, rest), depth, spare)
    requires Fed(t, IfThen(c, yes, rest), depth, spare, good) && Holds(sem, spare, good, w1)
    requires Settled(sem, IfThen(c, yes, rest)) && AllStop(sem, IfThen(c, yes, rest), w1)
    requires RunInsts(sem, pre, w) == (w1, Fall)
    ensures Through(sem, prog, IfThen(c, yes, rest), first, fin, w, w')
    ensures Ran(sem, IfThen(c, yes, rest), Saves(t, IfThen(c, yes, rest), depth, spare), w1, w')
    decreases IfThen(c, yes, rest), 0
  {
    hide Ran, Reaches, RunInsts, Placed, Effect, Masked, Lower, Saves, Distinct, SaveReg, SpareNext, SpareAfter, Fed,
         Holds, Spared, SameAt, AllStop;
    UnfoldThen(t, c, yes, rest, depth, spare);
    FedThen(t, c, yes, rest, depth, spare, good);
    LowerThenParts(t, c, yes, rest, pre, first, depth, spare, fin);
    var r := SaveReg(t, depth, spare);
    var f1 := SpareNext(t, spare);
    var g1 := Spared(spare, good, {r});
    var m := first + 1 + Size(yes);
    ThreePlaced(prog, first, pre + [Cmp(c), SaveExec(r), Execz(m)], Lower(t, yes, [], first + 1, depth + 1, f1, []),
      Lower(t, rest, [Or(r)], m, depth, SpareAfter(t, yes, f1), fin));
    MaskedHolds(sem, t, c, r, spare, good, w1);
    ThenStops(sem, c, r, yes, rest, w1);
    var w3 := ThenPart(sem, prog, t, c, r, yes, pre, first, depth + 1, f1, g1, w, w1);
    RunOne(sem, Or(r), w3);
    ThenRestStops(sem, c, r, yes, rest, Saves(t, yes, depth + 1, f1), w1, w3);
    HoldsKnown(sem, spare, good, {r}, w1);
    NextSameAt(t, spare);
    ArmHolds(sem, t, yes, depth + 1, spare, f1, g1, Masked(sem, c, r, w1), w3, Or(r));
    w' := Region(sem, prog, t, rest, [Or(r)], m, depth, SpareAfter(t, yes, f1),
                 Spared(spare, g1, Saves(t, yes, depth + 1, f1)), fin, w3, Effect(sem, Or(r), w3));
    ThroughOn(sem, prog, IfThen(c, yes, rest), rest, first, m, fin, w, w3, w');
    ThenRan(sem, c, r, yes, rest, Saves(t, yes, depth + 1, f1), Saves(t, rest, depth, SpareAfter(t, yes, f1)), w1, w3,
            w');
  }

  lemma {:induction false} RegionElse<L(!new)>(sem: Sem<L>, prog: seq<seq<Inst>>, t: Target, c: nat, yes: Code,
      no: Code, rest: Code, pre: seq<Inst>, first: nat, depth: nat, spare: Regs, good: set<nat>, fin: seq<Inst>,
      w: Wave<L>, w1: Wave<L>) returns (w': Wave<L>)
    requires Placed(prog, first, Lower(t, IfElse(c, yes, no, rest), pre, first, depth, spare, fin))
    requires Distinct(t, IfElse(c, yes, no, rest), depth, spare)
    requires Fed(t, IfElse(c, yes, no, rest), depth, spare, good) && Holds(sem, spare, good, w1)
    requires Settled(sem, IfElse(c, yes, no, rest)) && AllStop(sem, IfElse(c, yes, no, rest), w1)
    requires RunInsts(sem, pre, w) == (w1, Fall)
    ensures Through(sem, prog, IfElse(c, yes, no, rest), first, fin, w, w')
    ensures Ran(sem, IfElse(c, yes, no, rest), Saves(t, IfElse(c, yes, no, rest), depth, spare), w1, w')
    decreases IfElse(c, yes, no, rest), 0
  {
    hide Ran, Reaches, RunInsts, Placed, Effect, Masked, Lower, Saves, Distinct, SaveReg, SpareNext, SpareAfter, Fed,
         Holds, Spared, SameAt, AllStop;
    UnfoldElse(t, c, yes, no, rest, depth, spare);
    FedElse(t, c, yes, no, rest, depth, spare, good);
    LowerElseParts(t, c, yes, no, rest, pre, first, depth, spare, fin);
    var r := SaveReg(t, depth, spare);
    var f1 := SpareNext(t, spare);
    var f2 := SpareAfter(t, yes, f1);
    var f3 := SpareAfter(t, no, f2);
    var g1 := Spared(spare, good, {r});
    var g2 := Spared(spare, g1, Saves(t, yes, depth + 1, f1));
    var g3 := Spared(spare, g2, Saves(t, no, depth + 1, f2));
    var e := first + 1 + Size(yes);
    var m := e + Size(no);
    FourPlaced(prog, first, pre + [Cmp(c), SaveExec(r), Execz(e)], Lower(t, yes, [], first + 1, depth + 1, f1, []),
      Lower(t, no, [Xor(r), Execz(m)], e, depth + 1, f2, []), Lower(t, rest, [Or(r)], m, depth, f3, fin));
    MaskedHolds(sem, t, c, r, spare, good, w1);
    ElseStops(sem, c, r, yes, no, rest, w1);
    var w3 := ThenPart(sem, prog, t, c, r, yes, pre, first, depth + 1, f1, g1, w, w1);
    ElseArmStops(sem, c, r, yes, no, rest, Saves(t, yes, depth + 1, f1), w1, w3);
    HoldsKnown(sem, spare, good, {r}, w1);
    NextSameAt(t, spare);
    ArmHolds(sem, t, yes, depth + 1, spare, f1, g1, Masked(sem, c, r, w1), w3, Xor(r));
    var w5 := ElsePart(sem, prog, t, r, no, e, depth + 1, f2, g2, w3);
    RunOne(sem, Or(r), w5);
    FedSameAt(t, yes, depth + 1, f1, g1);
    SameAtTwice(spare, f1, f2);
    SparedWithin(spare, g1, Saves(t, yes, depth + 1, f1));
    ArmHolds(sem, t, no, depth + 1, spare, f2, g2, Effect(sem, Xor(r), w3), w5, Or(r));
    ElseRestStops(sem, c, r, yes, no, rest, Saves(t, yes, depth + 1, f1), Saves(t, no, depth + 1, f2), w1, w3, w5);
    w' := Region(sem, prog, t, rest, [Or(r)], m, depth, f3, g3, fin, w5, Effect(sem, Or(r), w5));
    RunOn(sem, prog, first, w, e, w3, m, w5);
    ThroughOn(sem, prog, IfElse(c, yes, no, rest), rest, first, m, fin, w, w5, w');
    ElseRan(sem, c, r, yes, no, rest, Saves(t, yes, depth + 1, f1), Saves(t, no, depth + 1, f2),
            Saves(t, rest, depth, f3), w1, w3, w5, w');
  }

  lemma SparedWithin(spare: Regs, good: set<nat>, written: set<nat>)
    ensures Spared(spare, good, written) <= good
  {
  }

  /** The end of a nest is the end of its last part. */
  lemma ThroughOn<L>(sem: Sem<L>, prog: seq<seq<Inst>>, code: Code, rest: Code, first: nat, m: nat, fin: seq<Inst>,
      w: Wave<L>, w1: Wave<L>, w': Wave<L>)
    requires Reaches(sem, prog, first, w, m, w1) && Through(sem, prog, rest, m, fin, w1, w')
    requires first + Size(code) == m + Size(rest)
    ensures Through(sem, prog, code, first, fin, w, w')
  {
    hide Reaches, RunInsts;
    var (w2, x) := RunInsts(sem, fin, w');
    RunOn(sem, prog, first, w, m, w1, Next(|prog|, m + Size(rest) - 1, x), w2);
  }

  lemma RegionDone<L>(sem: Sem<L>, prog: seq<seq<Inst>>, t: Target, pre: seq<Inst>, first: nat, depth: nat, spare: Regs,
      fin: seq<Inst>, w: Wave<L>, w1: Wave<L>) returns (w': Wave<L>)
    requires Placed(prog, first, Lower(t, Done, pre, first, depth, spare, fin))
    requires RunInsts(sem, pre, w) == (w1, Fall)
    ensures Through(sem, prog, Done, first, fin, w, w')
    ensures Ran(sem, Done, {}, w1, w')
  {
    hide Reaches, RunInsts;
    PlacedHead(prog, first, [pre + fin]);
    RunAppend(sem, pre, fin, w);
    w' := w1;
    RunEnter(sem, prog, first, w);
  }

  // ---- Which lanes leave the loops of the parts ----

  lemma ThenStops<L(!new)>(sem: Sem<L>, c: nat, r: nat, yes: Code, rest: Code, w: Wave<L>)
    requires AllStop(sem, IfThen(c, yes, rest), w)
    ensures AllStop(sem, yes, Masked(sem, c, r, w))
  {
    MaskedFacts(sem, c, r, w);
    hide Masked;
  }

  lemma ThenRestStops<L(!new)>(sem: Sem<L>, c: nat, r: nat, yes: Code, rest: Code, sy: set<nat>, w1: Wave<L>,
      w3: Wave<L>)
    requires AllStop(sem, IfThen(c, yes, rest), w1) && Ran(sem, yes, sy, Masked(sem, c, r, w1), w3) && r !in sy
    ensures AllStop(sem, rest, Effect(sem, Or(r), w3))
  {
    MaskedFacts(sem, c, r, w1);
    hide Masked;
    var w6 := Effect(sem, Or(r), w3);
    assert w6.exec == w1.exec;
    forall k: nat | k in w6.exec && k < |w6.lanes|
      ensures Stops(sem, rest, w6.lanes[k])
    {
      assert w6.lanes[k] == w3.lanes[k];
      assert Stops(sem, IfThen(c, yes, rest), w1.lanes[k]);
    }
  }

  lemma ElseStops<L(!new)>(sem: Sem<L>, c: nat, r: nat, yes: Code, no: Code, rest: Code, w: Wave<L>)
    requires AllStop(sem, IfElse(c, yes, no, rest), w)
    ensures AllStop(sem, yes, Masked(sem, c, r, w))
  {
    MaskedFacts(sem, c, r, w);
    hide Masked;
  }

  lemma ElseArmStops<L(!new)>(sem: Sem<L>, c: nat, r: nat, yes: Code, no: Code, rest: Code, sy: set<nat>, w1: Wave<L>,
      w3: Wave<L>)
    requires AllStop(sem, IfElse(c, yes, no, rest), w1) && Ran(sem, yes, sy, Masked(sem, c, r, w1), w3) && r !in sy
    ensures AllStop(sem, no, Effect(sem, Xor(r), w3))
  {
    MaskedFacts(sem, c, r, w1);
    hide Masked;
    var w4 := Effect(sem, Xor(r), w3);
    assert w4.exec == w1.exec - Masked(sem, c, r, w1).exec;
    forall k: nat | k in w4.exec && k < |w4.lanes|
      ensures Stops(sem, no, w4.lanes[k])
    {
      assert w4.lanes[k] == w3.lanes[k];
      assert Stops(sem, IfElse(c, yes, no, rest), w1.lanes[k]);
    }
  }

  lemma ElseRestStops<L(!new)>(sem: Sem<L>, c: nat, r: nat, yes: Code, no: Code, rest: Code, sy: set<nat>, sn: set<nat>,
      w1: Wave<L>, w3: Wave<L>, w5: Wave<L>)
    requires AllStop(sem, IfElse(c, yes, no, rest), w1) && r !in sy + sn
    requires Ran(sem, yes, sy, Masked(sem, c, r, w1), w3) && Ran(sem, no, sn, Effect(sem, Xor(r), w3), w5)
    ensures AllStop(sem, rest, Effect(sem, Or(r), w5))
  {
    MaskedFacts(sem, c, r, w1);
    hide Masked;
    var w4 := Effect(sem, Xor(r), w3);
    var w6 := Effect(sem, Or(r), w5);
    assert w4.exec == w1.exec - Masked(sem, c, r, w1).exec;
    assert w6.exec == w1.exec;
    forall k: nat | k in w6.exec && k < |w6.lanes|
      ensures Stops(sem, rest, w6.lanes[k])
    {
      assert w6.lanes[k] == w5.lanes[k] && w4.lanes[k] == w3.lanes[k];
      assert Stops(sem, IfElse(c, yes, no, rest), w1.lanes[k]);
    }
  }

  /** Masks and lanes over an if without else. */
  lemma ThenRan<L>(sem: Sem<L>, c: nat, r: nat, yes: Code, rest: Code, sy: set<nat>, sr: set<nat>, w1: Wave<L>,
      w3: Wave<L>, w': Wave<L>)
    requires Ran(sem, yes, sy, Masked(sem, c, r, w1), w3) && r !in sy
    requires Ran(sem, rest, sr, Effect(sem, Or(r), w3), w')
    ensures Ran(sem, IfThen(c, yes, rest), {r} + sy + sr, w1, w')
  {
    MaskedFacts(sem, c, r, w1);
    hide Masked;
    var w2 := Masked(sem, c, r, w1);
    var w6 := Effect(sem, Or(r), w3);
    assert w6.exec == w1.exec;
    forall k | 0 <= k < |w1.lanes|
      ensures w'.lanes[k] == if k in w1.exec then Eval(sem, IfThen(c, yes, rest), w1.lanes[k]) else w1.lanes[k]
    {
      assert w6.lanes[k] == w3.lanes[k];
    }
  }

  /** Masks and lanes over an if with else. */
  lemma ElseRan<L>(sem: Sem<L>, c: nat, r: nat, yes: Code, no: Code, rest: Code, sy: set<nat>, sn: set<nat>,
      sr: set<nat>, w1: Wave<L>, w3: Wave<L>, w5: Wave<L>, w': Wave<L>)
    requires Ran(sem, yes, sy, Masked(sem, c, r, w1), w3) && r !in sy + sn
    requires Ran(sem, no, sn, Effect(sem, Xor(r), w3), w5)
    requires Ran(sem, rest, sr, Effect(sem, Or(r), w5), w')
    ensures Ran(sem, IfElse(c, yes, no, rest), {r} + sy + sn + sr, w1, w')
  {
    MaskedFacts(sem, c, r, w1);
    hide Masked;
    var w2 := Masked(sem, c, r, w1);
    var w4 := Effect(sem, Xor(r), w3);
    var w6 := Effect(sem, Or(r), w5);
    assert w4.exec == w1.exec - w2.exec;
    assert w6.exec == w1.exec;
    forall k | 0 <= k < |w1.lanes|
      ensures w'.lanes[k] == if k in w1.exec then Eval(sem, IfElse(c, yes, no, rest), w1.lanes[k]) else w1.lanes[k]
    {
      assert w6.lanes[k] == w5.lanes[k] && w4.lanes[k] == w3.lanes[k];
    }
  }

  // ---- Loops ----

  /** The lanes and registers after the operations of a block. */
  ghost function OpsEffect<L>(sem: Sem<L>, spare: Regs, ops: seq<Op>, w: Wave<L>): Wave<L> {
    if ops == [] then w
    else OpEffect(sem, OpsRegs(spare, ops[..|ops| - 1]), ops[|ops| - 1], OpsEffect(sem, spare, ops[..|ops| - 1], w))
  }

  lemma {:induction false} OpsRun<L>(sem: Sem<L>, spare: Regs, ops: seq<Op>, good: set<nat>, w: Wave<L>)
    requires OpsFed(spare, ops, good) && Holds(sem, spare, good, w)
    ensures var w' := OpsEffect(sem, spare, ops, w);
            && RunInsts(sem, OpsInsts(spare, ops), w) == (w', Fall)
            && Holds(sem, OpsRegs(spare, ops), GoodOps(spare, ops, good), w')
            && |w'.lanes| == |w.lanes| && w'.exec == w.exec
            && (forall k :: 0 <= k < |w.lanes| ==>
                  w'.lanes[k] == if k in w.exec then RunOps(sem, ops, w.lanes[k]) else w.lanes[k])
            && (forall r: nat :: r !in TakenOps(spare, ops) ==> Reg(w', r) == Reg(w, r))
  {
    if ops == [] {
      RunNothing(sem, w);
    } else {
      var n := |ops| - 1;
      var x, g := OpsRegs(spare, ops[..n]), GoodOps(spare, ops[..n], good);
      OpsRun(sem, spare, ops[..n], good, w);
      var w1 := OpsEffect(sem, spare, ops[..n], w);
      OpRuns(sem, x, ops[n], w1);
      OpHolds(sem, x, ops[n], g, w1);
      OpLanes(sem, x, ops[n], g, w1);
      RunAppend(sem, OpsInsts(spare, ops[..n]), OpInsts(x, ops[n]), w);
      hide OpEffect, OpInsts, AfterOp, Taken, Holds, OpFed, GoodAfter, Act, RunInsts;
    }
  }

  /** From w at the head of a loop to w' behind it, before the mask is restored: the active lanes have
      left the loop, all lanes are off, the mask is in r, and only registers of ws were written. */
  ghost predicate Looped<L>(sem: Sem<L>, head: seq<Op>, c: nat, body: Code, r: nat, ws: set<nat>, w: Wave<L>,
      w': Wave<L>) {
    && |w'.lanes| == |w.lanes| && w'.exec == {} && Reg(w', r) == w.exec
    && (forall k :: 0 <= k < |w.lanes| ==>
          w'.lanes[k] == if k in w.exec then LoopOut(sem, head, c, body, w.lanes[k]) else w.lanes[k])
    && (forall q: nat :: q !in ws ==> Reg(w', q) == Reg(w, q))
  }

  /** Every active lane leaves the loop within n rounds. */
  ghost predicate AllStopIn<L>(sem: Sem<L>, head: seq<Op>, c: nat, body: Code, w: Wave<L>, n: nat) {
    forall k: nat :: k in w.exec && k < |w.lanes| ==> StopsIn(sem, head, c, body, w.lanes[k], n)
  }

  /** After the head: lanes with the condition are on, the others have left. */
  ghost predicate Headed<L>(sem: Sem<L>, head: seq<Op>, c: nat, r: nat, ws: set<nat>, w: Wave<L>, w2: Wave<L>) {
    && |w2.lanes| == |w.lanes| && Reg(w2, r) == w.exec && w2.exec <= w.exec
    && (forall k :: 0 <= k < |w.lanes| ==>
          w2.lanes[k] == if k in w.exec then RunOps(sem, head, w.lanes[k]) else w.lanes[k])
    && (forall k: nat :: k < |w.lanes| ==> (k in w2.exec <==> k in w.exec && sem.holds(c, w2.lanes[k])))
    && (forall k: nat :: k in w2.exec ==> k < |w.lanes|)
    && (forall q: nat :: q !in ws ==> Reg(w2, q) == Reg(w, q))
  }

  lemma LoopHead<L>(sem: Sem<L>, t: Target, head: seq<Op>, c: nat, r: nat, m: nat, spare: Regs, g0: set<nat>,
      ws: set<nat>, w: Wave<L>) returns (w2: Wave<L>)
    requires OpsFed(spare, head, g0) && Holds(sem, spare, g0, w) && TakenOps(spare, head) <= ws && r in ws
    ensures Headed(sem, head, c, r, ws, w, w2)
    ensures RunInsts(sem, OpsInsts(spare, head) + [Cmp(c), SaveExec(r), Execz(m)], w)
         == (w2, if w2.exec == {} then Jump(m) else Fall)
    ensures var x := OpsRegs(spare, head); Holds(sem, SpareNext(t, x), Spared(x, GoodOps(spare, head, g0), {r}), w2)
  {
    hide RunInsts, OpsFed, Holds, OpsEffect, OpsInsts, TakenOps, GoodOps, OpsRegs, RunOps, SpareNext;
    OpsRun(sem, spare, head, g0, w);
    var w1 := OpsEffect(sem, spare, head, w);
    RunAppend(sem, OpsInsts(spare, head), [Cmp(c), SaveExec(r), Execz(m)], w);
    RunHead(sem, c, r, m, w1);
    MaskedFacts(sem, c, r, w1);
    MaskedLanes(sem, c, r, w1);
    MaskedHolds(sem, t, c, r, OpsRegs(spare, head), GoodOps(spare, head, g0), w1);
    w2 := Masked(sem, c, r, w1);
    hide Masked;
  }

  lemma MaskedLanes<L>(sem: Sem<L>, c: nat, r: nat, w: Wave<L>)
    ensures forall k: nat :: k in Masked(sem, c, r, w).exec ==> k < |w.lanes|
  {
  }

  /** The branch back: the mask is what it was at the head, and control goes there. */
  lemma RunBack<L>(sem: Sem<L>, r: nat, h: nat, w: Wave<L>)
    ensures RunInsts(sem, [Or(r), Branch(h)], w) == (Effect(sem, Or(r), w), Jump(h))
  {
    RunCons(sem, Or(r), [Branch(h)], w);
    RunCons(sem, Branch(h), [], Effect(sem, Or(r), w));
    assert [Or(r)] + ([Branch(h)] + []) == [Or(r), Branch(h)];
  }

  /** With no lane left the loop is over. */
  lemma LoopLeft<L(!new)>(sem: Sem<L>, head: seq<Op>, c: nat, body: Code, r: nat, ws: set<nat>, w: Wave<L>, w2: Wave<L>,
      n: nat)
    requires Headed(sem, head, c, r, ws, w, w2) && AllStopIn(sem, head, c, body, w, n) && w2.exec == {}
    ensures Looped(sem, head, c, body, r, ws, w, w2)
  {
    hide LoopOut, RunOps, StopsIn;
    forall k | 0 <= k < |w.lanes| && k in w.exec
      ensures w2.lanes[k] == LoopOut(sem, head, c, body, w.lanes[k])
    {
      OutUnfolds(sem, head, c, body, w.lanes[k], n);
    }
  }

  /** A round: at the head again the same lanes are on, and each is one round nearer the end. */
  lemma LoopRound<L(!new)>(sem: Sem<L>, head: seq<Op>, c: nat, body: Code, r: nat, sb: set<nat>, ws: set<nat>,
      w: Wave<L>, w2: Wave<L>, w3: Wave<L>, n: nat)
    requires Headed(sem, head, c, r, ws, w, w2) && AllStopIn(sem, head, c, body, w, n) && w2.exec != {}
    requires Ran(sem, body, sb, w2, w3) && r !in sb && sb <= ws && HeadSettles(sem, head, c)
    ensures var w4 := Effect(sem, Or(r), w3);
            && n > 0 && w4.exec == w.exec && |w4.lanes| == |w.lanes|
            && AllStopIn(sem, head, c, body, w4, n - 1)
            && (forall q: nat :: q !in ws ==> Reg(w4, q) == Reg(w, q))
            && (forall k: nat :: k < |w.lanes| && k in w.exec ==>
                  LoopOut(sem, head, c, body, w4.lanes[k]) == LoopOut(sem, head, c, body, w.lanes[k]))
            && (forall k: nat :: k < |w.lanes| && k !in w.exec ==> w4.lanes[k] == w.lanes[k])
  {
    var w4 := Effect(sem, Or(r), w3);
    assert w4.exec == w.exec;
    var j :| j in w2.exec;
    assert StopsIn(sem, head, c, body, w.lanes[j], n);
    hide LoopOut, RunOps, HeadSettles;
    forall k: nat | k < |w.lanes| && k in w.exec
      ensures StopsIn(sem, head, c, body, w4.lanes[k], n - 1)
      ensures LoopOut(sem, head, c, body, w4.lanes[k]) == LoopOut(sem, head, c, body, w.lanes[k])
    {
      assert w4.lanes[k] == w3.lanes[k];
      OneRound(sem, head, c, body, w.lanes[k], w4.lanes[k], n);
    }
  }

  lemma OneRound<L(!new)>(sem: Sem<L>, head: seq<Op>, c: nat, body: Code, l: L, l2: L, n: nat)
    requires StopsIn(sem, head, c, body, l, n) && n > 0 && HeadSettles(sem, head, c)
    requires var l' := RunOps(sem, head, l); l2 == if sem.holds(c, l') then Eval(sem, body, l') else l'
    ensures StopsIn(sem, head, c, body, l2, n - 1)
    ensures LoopOut(sem, head, c, body, l2) == LoopOut(sem, head, c, body, l)
  {
    hide LoopOut;
    OutUnfolds(sem, head, c, body, l, n);
    OutUnfolds(sem, head, c, body, l2, n - 1);
  }

  /** From the head of a loop to the block behind it. */
  lemma {:induction false} LoopRuns<L(!new)>(sem: Sem<L>, prog: seq<seq<Inst>>, t: Target, head: seq<Op>, c: nat,
      body: Code, h: nat, depth: nat, spare: Regs, g0: set<nat>, r: nat, ws: set<nat>, w: Wave<L>, n: nat)
      returns (w': Wave<L>)
    requires var f1, m := SpareNext(t, OpsRegs(spare, head)), h + 1 + Size(body);
             && h < |prog| && prog[h] == OpsInsts(spare, head) + [Cmp(c), SaveExec(r), Execz(m)]
             && Placed(prog, h + 1, Lower(t, body, [], h + 1, depth + 1, f1, [Or(r), Branch(h)]))
             && Distinct(t, body, depth + 1, f1) && r !in Saves(t, body, depth + 1, f1)
             && ws == TakenOps(spare, head) + {r} + Saves(t, body, depth + 1, f1)
             && Fed(t, body, depth + 1, f1, Spared(OpsRegs(spare, head), GoodOps(spare, head, g0), {r}))
    requires OpsFed(spare, head, g0) && Holds(sem, spare, g0, w) && forall v :: v in g0 ==> PairOf(spare, v) !in ws
    requires HeadSettles(sem, head, c) && Settled(sem, body) && AllStopIn(sem, head, c, body, w, n)
    ensures Reaches(sem, prog, h, w, h + 1 + Size(body), w') && Looped(sem, head, c, body, r, ws, w, w')
    ensures var x := OpsRegs(spare, head); Holds(sem, SpareNext(t, x), Spared(x, GoodOps(spare, head, g0), {r}), w')
    decreases body, 3, n
  {
    hide Ran, Reaches, RunInsts, Placed, Effect, Lower, Saves, Distinct, SpareNext, SpareAfter, Fed, Holds, Spared;
    hide AllStop, AllStopIn, OpsFed, OpsRegs, OpsInsts, TakenOps, GoodOps, HeadSettles, Settled, Looped, Headed;
    var x := OpsRegs(spare, head);
    var f1, m := SpareNext(t, x), h + 1 + Size(body);
    var g1 := Spared(x, GoodOps(spare, head, g0), {r});
    var sb := Saves(t, body, depth + 1, f1);
    var w2 := LoopHead(sem, t, head, c, r, m, spare, g0, ws, w);
    RunEnter(sem, prog, h, w);
    if w2.exec == {} {
      w' := w2;
      LoopLeft(sem, head, c, body, r, ws, w, w2, n);
    } else {
      BodyStops(sem, head, c, body, r, ws, w, w2, n);
      RunNothing(sem, w2);
      var w3 := Region(sem, prog, t, body, [], h + 1, depth + 1, f1, g1, [Or(r), Branch(h)], w2, w2);
      RunBack(sem, r, h, w3);
      var w4 := Effect(sem, Or(r), w3);
      RunOn(sem, prog, h, w, h + 1, w2, h, w4);
      LoopRound(sem, head, c, body, r, sb, ws, w, w2, w3, n);
      StillHolds(sem, spare, g0, ws, w, w4);
      w' := LoopRuns(sem, prog, t, head, c, body, h, depth, spare, g0, r, ws, w4, n - 1);
      RunOn(sem, prog, h, w, h, w4, m, w');
      LoopedOn(sem, head, c, body, r, ws, w, w4, w');
    }
  }

  lemma BodyStops<L(!new)>(sem: Sem<L>, head: seq<Op>, c: nat, body: Code, r: nat, ws: set<nat>, w: Wave<L>,
      w2: Wave<L>, n: nat)
    requires Headed(sem, head, c, r, ws, w, w2) && AllStopIn(sem, head, c, body, w, n)
    ensures AllStop(sem, body, w2)
  {
    forall k: nat | k in w2.exec && k < |w2.lanes|
      ensures Stops(sem, body, w2.lanes[k])
    {
      assert StopsIn(sem, head, c, body, w.lanes[k], n);
    }
  }

  lemma StillHolds<L>(sem: Sem<L>, spare: Regs, good: set<nat>, ws: set<nat>, w: Wave<L>, w': Wave<L>)
    requires Holds(sem, spare, good, w) && (forall v :: v in good ==> PairOf(spare, v) !in ws)
    requires forall q: nat :: q !in ws ==> Reg(w', q) == Reg(w, q)
    ensures Holds(sem, spare, good, w')
  {
  }

  lemma LoopedOn<L(!new)>(sem: Sem<L>, head: seq<Op>, c: nat, body: Code, r: nat, ws: set<nat>, w: Wave<L>, w4: Wave<L>,
      w': Wave<L>)
    requires Looped(sem, head, c, body, r, ws, w4, w') && w4.exec == w.exec && |w4.lanes| == |w.lanes|
    requires forall q: nat :: q !in ws ==> Reg(w4, q) == Reg(w, q)
    requires forall k: nat :: k < |w.lanes| && k in w.exec ==>
               LoopOut(sem, head, c, body, w4.lanes[k]) == LoopOut(sem, head, c, body, w.lanes[k])
    requires forall k: nat :: k < |w.lanes| && k !in w.exec ==> w4.lanes[k] == w.lanes[k]
    ensures Looped(sem, head, c, body, r, ws, w, w')
  {
    hide LoopOut;
  }

  /** Enough rounds for all active lanes. */
  lemma {:induction false} EnoughRounds<L(!new)>(sem: Sem<L>, head: seq<Op>, c: nat, body: Code, rest: Code, w: Wave<L>,
      upto: nat) returns (n: nat)
    requires upto <= |w.lanes| && AllStop(sem, While(head, c, body, rest), w)
    ensures forall k: nat :: k in w.exec && k < upto ==> StopsIn(sem, head, c, body, w.lanes[k], n)
    decreases upto
  {
    if upto == 0 {
      return 0;
    }
    var n0 := EnoughRounds(sem, head, c, body, rest, w, upto - 1);
    var n1: nat := 0;
    if upto - 1 in w.exec {
      assert Stops(sem, While(head, c, body, rest), w.lanes[upto - 1]);
      n1 :| StopsIn(sem, head, c, body, w.lanes[upto - 1], n1);
    }
    n := if n0 < n1 then n1 else n0;
    forall k: nat | k in w.exec && k < upto
      ensures StopsIn(sem, head, c, body, w.lanes[k], n)
    {
      StopsLonger(sem, head, c, body, w.lanes[k], if k < upto - 1 then n0 else n1, n);
    }
  }

  /** Lanes and registers over a loop and what follows it. */
  lemma WhileRan<L(!new)>(sem: Sem<L>, head: seq<Op>, c: nat, body: Code, rest: Code, r: nat, ws: set<nat>,
      sr: set<nat>, w1: Wave<L>, w3: Wave<L>, w': Wave<L>)
    requires AllStop(sem, While(head, c, body, rest), w1) && Looped(sem, head, c, body, r, ws, w1, w3)
    requires Ran(sem, rest, sr, Effect(sem, Or(r), w3), w')
    ensures Ran(sem, While(head, c, body, rest), ws + sr, w1, w')
  {
    var w6 := Effect(sem, Or(r), w3);
    assert w6.exec == w1.exec;
    forall k: nat | k < |w1.lanes|
      ensures w'.lanes[k] == if k in w1.exec then Eval(sem, While(head, c, body, rest), w1.lanes[k]) else w1.lanes[k]
    {
      assert w6.lanes[k] == w3.lanes[k];
      if k in w1.exec {
        assert Stops(sem, While(head, c, body, rest), w1.lanes[k]);
        var n: nat :| StopsIn(sem, head, c, body, w1.lanes[k], n);
        OutUnfolds(sem, head, c, body, w1.lanes[k], n);
      }
      hide Eval, LoopOut, Stops, StopsIn;
    }
  }

  lemma WhileRestStops<L(!new)>(sem: Sem<L>, head: seq<Op>, c: nat, body: Code, rest: Code, r: nat, ws: set<nat>,
      w1: Wave<L>, w3: Wave<L>)
    requires AllStop(sem, While(head, c, body, rest), w1) && Looped(sem, head, c, body, r, ws, w1, w3)
    ensures AllStop(sem, rest, Effect(sem, Or(r), w3))
  {
    hide LoopOut, Eval;
    var w6 := Effect(sem, Or(r), w3);
    assert w6.exec == w1.exec;
    forall k: nat | k in w6.exec && k < |w6.lanes|
      ensures Stops(sem, rest, w6.lanes[k])
    {
      assert w6.lanes[k] == w3.lanes[k];
      assert Stops(sem, While(head, c, body, rest), w1.lanes[k]);
    }
  }

  lemma {:induction false} RegionWhile<L(!new)>(sem: Sem<L>, prog: seq<seq<Inst>>, t: Target, head: seq<Op>, c: nat,
      body: Code, rest: Code, pre: seq<Inst>, first: nat, depth: nat, spare: Regs, good: set<nat>, fin: seq<Inst>,
      w: Wave<L>, w1: Wave<L>) returns (w': Wave<L>)
    requires Placed(prog, first, Lower(t, While(head, c, body, rest), pre, first, depth, spare, fin))
    requires Distinct(t, While(head, c, body, rest), depth, spare)
    requires Fed(t, While(head, c, body, rest), depth, spare, good) && Holds(sem, spare, good, w1)
    requires Settled(sem, While(head, c, body, rest)) && AllStop(sem, While(head, c, body, rest), w1)
    requires RunInsts(sem, pre, w) == (w1, Fall)
    ensures Through(sem, prog, While(head, c, body, rest), first, fin, w, w')
    ensures Ran(sem, While(head, c, body, rest), Saves(t, While(head, c, body, rest), depth, spare), w1, w')
    decreases While(head, c, body, rest), 0
  {
    hide Ran, Reaches, RunInsts, Placed, Effect, Lower, Saves, Distinct, SaveReg, SpareNext, SpareAfter, Fed, Holds;
    hide Spared, SameAt, AllStop, OpsFed, OpsRegs, OpsInsts, TakenOps, GoodOps, HeadSettles, Looped, Through,
         LoopWrites;
    UnfoldWhile(t, head, c, body, rest, depth, spare, good);
    LowerWhileParts(t, head, c, body, rest, pre, first, depth, spare, fin);
    var x := OpsRegs(spare, head);
    var r, f1, m := SaveReg(t, depth, x), SpareNext(t, x), first + 2 + Size(body);
    var ws := LoopWrites(t, head, body, depth, spare);
    var g0 := Spared(spare, good, ws);
    var g1 := Spared(x, GoodOps(spare, head, g0), {r});
    var f2 := SpareAfter(t, body, f1);
    var hb := OpsInsts(spare, head) + [Cmp(c), SaveExec(r), Execz(m)];
    FourPlaced(prog, first, pre, [hb], Lower(t, body, [], first + 2, depth + 1, f1, [Or(r), Branch(first + 1)]),
               Lower(t, rest, [Or(r)], m, depth, f2, fin));
    PlacedHead(prog, first + 1, [hb]);
    RunEnter(sem, prog, first, w);
    SparedHolds(sem, spare, good, ws, w1);
    var n := EnoughRounds(sem, head, c, body, rest, w1, |w1.lanes|);
    var w3 := LoopRuns(sem, prog, t, head, c, body, first + 1, depth, spare, g0, r, ws, w1, n);
    RunOn(sem, prog, first, w, first + 1, w1, m, w3);
    RunOne(sem, Or(r), w3);
    FedSameAt(t, body, depth + 1, f1, g1);
    OrHolds(sem, f1, f2, g1, r, w3);
    WhileRestStops(sem, head, c, body, rest, r, ws, w1, w3);
    w' := Region(sem, prog, t, rest, [Or(r)], m, depth, f2, g1, fin, w3, Effect(sem, Or(r), w3));
    ThroughOn(sem, prog, While(head, c, body, rest), rest, first, m, fin, w, w3, w');
    WhileRan(sem, head, c, body, rest, r, ws, Saves(t, rest, depth, f2), w1, w3, w');
  }

  lemma SparedHolds<L>(sem: Sem<L>, spare: Regs, good: set<nat>, ws: set<nat>, w: Wave<L>)
    requires Holds(sem, spare, good, w)
    ensures Holds(sem, spare, Spared(spare, good, ws), w)
    ensures forall v :: v in Spared(spare, good, ws) ==> PairOf(spare, v) !in ws
  {
  }

  lemma OrHolds<L>(sem: Sem<L>, spare: Regs, later: Regs, good: set<nat>, r: nat, w: Wave<L>)
    requires Holds(sem, spare, good, w) && SameAt(spare, later)
    ensures Holds(sem, later, good, Effect(sem, Or(r), w))
  {
  }
}
