/** The selector's handling of divergent branches: a stack of open regions, the mask flip and restore
    at block starts, and branches suppressed or left out where control falls through. */
module ExecLowering {
  import opened DivergentCode
  import opened ExecMachine

  const MAX_DIV_REGIONS: nat := 64

  /** An open divergent region. */
  datatype Open = Open(saved: nat, onFalse: nat, merge: nat, cond: nat, hasElse: bool, inThen: bool)

  // ---- What one block emits, as functions of the open regions ----

  predicate Flips(o: Open, b: nat) {
    o.hasElse && o.onFalse == b
  }

  /** Mask flips at the start of block b, outermost region first. */
  function FlipInsts(stack: seq<Open>, b: nat): seq<Inst> {
    if stack == [] then [] else
      var o := stack[|stack| - 1];
      FlipInsts(stack[..|stack| - 1], b) + if Flips(o, b) then [Xor(o.saved), Execz(o.merge)] else []
  }

  function FlipStack(stack: seq<Open>, b: nat): (r: seq<Open>)
    ensures |r| == |stack|
  {
    if stack == [] then [] else
      var o := stack[|stack| - 1];
      FlipStack(stack[..|stack| - 1], b) + [if Flips(o, b) then o.(inThen := false) else o]
  }

  /** Mask restores at the start of block b, innermost region first. */
  function MergeInsts(stack: seq<Open>, b: nat): seq<Inst> {
    if stack == [] then [] else
      var o := stack[|stack| - 1];
      (if o.merge == b then [Or(o.saved)] else []) + MergeInsts(stack[..|stack| - 1], b)
  }

  /** How many regions merge at b. */
  function Merges(stack: seq<Open>, b: nat): (n: nat)
    ensures n <= |stack|
  {
    if stack == [] then 0 else
      Merges(stack[..|stack| - 1], b) + if stack[|stack| - 1].merge == b then 1 else 0
  }

  function Prologue(stack: seq<Open>, b: nat): (seq<Inst>, seq<Open>) {
    var s := FlipStack(stack, b);
    (FlipInsts(stack, b) + MergeInsts(s, b), s[..|s| - Merges(s, b)])
  }

  /** A then-arm ends where the else-arm starts, so its branch to the merge is not emitted. */
  predicate Suppressed(stack: seq<Open>, target: nat) {
    exists i :: 0 <= i < |stack| && stack[i].hasElse && stack[i].inThen && stack[i].merge == target
  }

  /** Restores before a back edge, innermost first. */
  function Restores(stack: seq<Open>, target: nat): seq<Inst> {
    if stack == [] then [] else
      var o := stack[|stack| - 1];
      (if o.cond >= target then [Or(o.saved)] else []) + Restores(stack[..|stack| - 1], target)
  }

  function BranchInsts(stack: seq<Open>, b: nat, target: nat): seq<Inst> {
    if Suppressed(stack, target) then []
    else (if target <= b then Restores(stack, target) else []) + if target == b + 1 then [] else [Branch(target)]
  }

  /** Open regions and the registers given out. */
  datatype State = State(stack: seq<Open>, spare: Regs)

  /** After the operations of a block. */
  function OpsState(s: State, ops: seq<Op>): State {
    s.(spare := OpsRegs(s.spare, ops))
  }

  function TermInsts(t: Target, s: State, b: nat, term: Term): seq<Inst> {
    match term
    case Br(target) => BranchInsts(s.stack, b, target)
    case BrCond(c, _, onFalse, _) => [Cmp(c), SaveExec(SaveReg(t, |s.stack|, s.spare)), Execz(onFalse)]
    case Ret => [EndPgm]
  }

  function TermState(t: Target, s: State, b: nat, term: Term): State {
    if !term.BrCond? then s
    else
      var o := Open(SaveReg(t, |s.stack|, s.spare), term.onFalse, term.merge, b, term.merge != term.onFalse, true);
      State(if |s.stack| < MAX_DIV_REGIONS then s.stack + [o] else s.stack, SpareNext(t, s.spare))
  }

  /** Blocks from number b on; pre is what is already emitted for the first. */
  function Emit(t: Target, blocks: seq<Block>, b: nat, s: State, pre: seq<Inst>): (r: (seq<seq<Inst>>, State))
    ensures |r.0| == |blocks|
  {
    if blocks == [] then ([], s) else
      var s0 := OpsState(s, blocks[0].ops);
      var body := pre + OpsInsts(s.spare, blocks[0].ops) + TermInsts(t, s0, b, blocks[0].term);
      var s1 := TermState(t, s0, b, blocks[0].term);
      if |blocks| == 1 then ([body], s1) else
        var p := Prologue(s1.stack, b + 1);
        var r := Emit(t, blocks[1..], b + 1, s1.(stack := p.1), p.0);
        ([body] + r.0, r.1)
  }

  lemma {:induction false} EmitSplit(t: Target, x: seq<Block>, y: seq<Block>, b: nat, s: State, pre: seq<Inst>)
    requires |x| > 0 && |y| > 0
    ensures var r := Emit(t, x, b, s, pre);
            var p := Prologue(r.1.stack, b + |x|);
            var q := Emit(t, y, b + |x|, r.1.(stack := p.1), p.0);
            Emit(t, x + y, b, s, pre) == (r.0 + q.0, q.1)
    decreases |x|
  {
    hide Prologue;
    var s0 := OpsState(s, x[0].ops);
    var s1 := TermState(t, s0, b, x[0].term);
    var p1 := Prologue(s1.stack, b + 1);
    assert (x + y)[1..] == x[1..] + y && (x + y)[0] == x[0];
    if |x| == 1 {
      assert x[1..] + y == y;
    } else {
      EmitSplit(t, x[1..], y, b + 1, s1.(stack := p1.1), p1.0);
      var body := pre + OpsInsts(s.spare, x[0].ops) + TermInsts(t, s0, b, x[0].term);
      var r := Emit(t, x[1..], b + 1, s1.(stack := p1.1), p1.0);
      var p := Prologue(r.1.stack, b + |x|);
      var q := Emit(t, y, b + |x|, r.1.(stack := p.1), p.0);
      assert [body] + (r.0 + q.0) == [body] + r.0 + q.0;
    }
  }

  // ---- Block starts inside a structured nest ----

  /** No open region flips or merges strictly between first and end. */
  ghost predicate Around(o: Open, first: nat, end: nat) {
    o.merge >= end && (o.hasElse ==> o.onFalse <= first || o.onFalse >= end)
  }

  ghost predicate AllAround(stack: seq<Open>, first: nat, end: nat) {
    forall i :: 0 <= i < |stack| ==> Around(stack[i], first, end)
  }

  lemma {:induction false} QuietBlock(stack: seq<Open>, first: nat, end: nat, b: nat)
    requires AllAround(stack, first, end) && first < b < end
    ensures FlipInsts(stack, b) == [] && FlipStack(stack, b) == stack && MergeInsts(stack, b) == []
    ensures Merges(stack, b) == 0
    decreases |stack|
  {
    if stack != [] {
      QuietBlock(stack[..|stack| - 1], first, end, b);
      assert Around(stack[|stack| - 1], first, end);
    }
  }

  lemma NoneBefore(x: seq<Inst>)
    ensures [] + x == x && x + [] == x
  {
  }

  lemma QuietPrologue(stack: seq<Open>, first: nat, end: nat, b: nat)
    requires AllAround(stack, first, end) && first < b < end
    ensures Prologue(stack, b) == ([], stack)
  {
    QuietBlock(stack, first, end, b);
    NoneBefore([]);
    assert stack[..|stack| - 0] == stack;
  }

  /** The else block of the innermost region. */
  lemma ElsePrologue(stack: seq<Open>, o: Open, first: nat, end: nat)
    requires AllAround(stack, first, end) && first < o.onFalse < end && o.hasElse && o.merge > o.onFalse
    ensures Prologue(stack + [o], o.onFalse) == ([Xor(o.saved), Execz(o.merge)], stack + [o.(inThen := false)])
  {
    var b := o.onFalse;
    var all := stack + [o];
    assert all[..|stack|] == stack;
    QuietBlock(stack, first, end, b);
    var s := FlipStack(all, b);
    assert s == stack + [o.(inThen := false)];
    assert s[..|stack|] == stack;
    assert FlipInsts(all, b) == [Xor(o.saved), Execz(o.merge)];
    assert MergeInsts(s, b) == [] && Merges(s, b) == 0;
    assert s[..|s| - 0] == s;
    NoneBefore([Xor(o.saved), Execz(o.merge)]);
  }

  /** The merge block of the innermost region, which is thereby closed. */
  lemma MergePrologue(stack: seq<Open>, o: Open, first: nat, end: nat)
    requires AllAround(stack, first, end) && first < o.merge < end && (o.hasElse ==> o.onFalse != o.merge)
    ensures Prologue(stack + [o], o.merge) == ([Or(o.saved)], stack)
  {
    var b := o.merge;
    var all := stack + [o];
    assert all[..|stack|] == stack;
    QuietBlock(stack, first, end, b);
    assert FlipStack(all, b) == all;
    assert FlipInsts(all, b) == [];
    NoneBefore([Or(o.saved)]);
    assert MergeInsts(all, b) == [Or(o.saved)] && Merges(all, b) == 1;
  }

  // ---- The emitted code of a nest ----

  /** What is emitted for the last terminator of a nest, in block b. */
  function EndInsts(stack: seq<Open>, b: nat, end: Term): seq<Inst> {
    match end
    case Ret => [EndPgm]
    case Br(target) => BranchInsts(stack, b, target)
    case BrCond(_, _, _, _) => []
  }

  /** Every open region was opened before block first. */
  ghost predicate Opened(stack: seq<Open>, first: nat) {
    forall i :: 0 <= i < |stack| ==> stack[i].cond < first
  }

  /** An arm that ends where the next part starts, or whose branch is suppressed, falls through. */
  lemma FallsThrough(stack: seq<Open>, b: nat, target: nat)
    requires target == b + 1 || (target > b && Suppressed(stack, target))
    ensures EndInsts(stack, b, Br(target)) == []
  {
  }

  lemma {:induction false} RestoresNone(stack: seq<Open>, target: nat)
    requires Opened(stack, target)
    ensures Restores(stack, target) == []
  {
    if stack != [] {
      RestoresNone(stack[..|stack| - 1], target);
    }
  }

  /** The branch back to the head h of a loop gives back the lanes of the loop and of no other region. */
  lemma BackEnd(stack: seq<Open>, o: Open, b: nat, h: nat, end: nat)
    requires Opened(stack, h) && AllAround(stack, h, end) && h < end && h <= b && o.cond >= h && !o.hasElse
    ensures EndInsts(stack + [o], b, Br(h)) == [Or(o.saved), Branch(h)]
  {
    var all := stack + [o];
    assert all[..|stack|] == stack;
    RestoresNone(stack, h);
    assert Restores(all, h) == [Or(o.saved)];
    assert !Suppressed(all, h);
    assert [Or(o.saved)] + [Branch(h)] == [Or(o.saved), Branch(h)];
  }

  /** The lanes saved by the regions opened at or after target. */
  ghost function SavedSince<L>(stack: seq<Open>, target: nat, w: Wave<L>): set<nat> {
    if stack == [] then {}
    else
      var o := stack[|stack| - 1];
      SavedSince(stack[..|stack| - 1], target, w) + if o.cond >= target then Reg(w, o.saved) else {}
  }

  lemma {:induction false} RestoresRun<L>(sem: Sem<L>, stack: seq<Open>, target: nat, w: Wave<L>)
    ensures RunInsts(sem, Restores(stack, target), w) == (w.(exec := w.exec + SavedSince(stack, target, w)), Fall)
    decreases |stack|
  {
    if stack == [] {
      RunNothing(sem, w);
      assert w.exec + {} == w.exec;
    } else {
      var o, below := stack[|stack| - 1], stack[..|stack| - 1];
      var w1 := if o.cond >= target then Effect(sem, Or(o.saved), w) else w;
      RestoresRun(sem, below, target, w1);
      SameSaved(below, target, w, w1);
      if o.cond >= target {
        RunCons(sem, Or(o.saved), Restores(below, target), w);
        assert w.exec + SavedSince(stack, target, w) == w1.exec + SavedSince(below, target, w);
      } else {
        NoneBefore(Restores(below, target));
        assert SavedSince(stack, target, w) == SavedSince(below, target, w);
      }
    }
  }

  lemma {:induction false} SameSaved<L>(stack: seq<Open>, target: nat, w: Wave<L>, w1: Wave<L>)
    requires w1.sregs == w.sregs
    ensures SavedSince(stack, target, w1) == SavedSince(stack, target, w)
    decreases |stack|
  {
    if stack != [] {
      SameSaved(stack[..|stack| - 1], target, w, w1);
    }
  }

  /** What is emitted for a branch back switches on the lanes of every region opened since the target,
      changes nothing else, and goes there. */
  lemma BackBranch<L>(sem: Sem<L>, stack: seq<Open>, b: nat, target: nat, w: Wave<L>)
    requires target <= b && !Suppressed(stack, target)
    ensures RunInsts(sem, BranchInsts(stack, b, target), w)
         == (w.(exec := w.exec + SavedSince(stack, target, w)), Jump(target))
  {
    hide Restores, RunInsts, SavedSince;
    RestoresRun(sem, stack, target, w);
    RunAppend(sem, Restores(stack, target), [Branch(target)], w);
    var w1 := w.(exec := w.exec + SavedSince(stack, target, w));
    RunCons(sem, Branch(target), [], w1);
    assert [Branch(target)] + [] == [Branch(target)];
  }

  /** The selector's output on the blocks of a nest is the nest's code, and the open regions are at
      the end what they were at the start. */
  lemma {:induction false} EmitsNest(t: Target, code: Code, ops: seq<Op>, first: nat, end: Term, s: State,
      pre: seq<Inst>)
    requires AllAround(s.stack, first, first + Size(code)) && Opened(s.stack, first) && !end.BrCond?
    requires |s.stack| + Depth(code) <= MAX_DIV_REGIONS
    ensures var fin := EndInsts(s.stack, first + Size(code) - 1, end);
            Emit(t, Flatten(code, ops, first, end), first, s, pre)
            == (Lower(t, code, pre + OpsInsts(s.spare, ops), first, |s.stack|, OpsRegs(s.spare, ops), fin),
                s.(spare := SpareAfter(t, code, OpsRegs(s.spare, ops))))
    decreases code, 1
  {
    hide Emit, AllAround, Opened, EndInsts, Flatten, Lower, OpsInsts, OpsRegs;
    match code
    case Done => EmitsDone(t, ops, first, end, s, pre);
    case Step(op, rest) =>
      StepFlatten(op, rest, ops, first, end);
      StepLower(t, op, rest, pre, ops, first, |s.stack|, s.spare, EndInsts(s.stack, first + Size(code) - 1, end));
      OpsMore(s.spare, ops, op);
      EmitsNest(t, rest, ops + [op], first, end, s, pre);
    case IfThen(c, yes, rest) => EmitsThen(t, c, yes, rest, ops, first, end, s, pre);
    case IfElse(c, yes, no, rest) => EmitsElse(t, c, yes, no, rest, ops, first, end, s, pre);
    case While(head, c, body, rest) => EmitsWhile(t, head, c, body, rest, ops, first, end, s, pre);
  }

  lemma EmitsDone(t: Target, ops: seq<Op>, first: nat, end: Term, s: State, pre: seq<Inst>)
    requires !end.BrCond?
    ensures Emit(t, Flatten(Done, ops, first, end), first, s, pre)
         == (Lower(t, Done, pre + OpsInsts(s.spare, ops), first, |s.stack|, OpsRegs(s.spare, ops),
                   EndInsts(s.stack, first, end)),
             OpsState(s, ops))
  {
    hide OpsInsts, OpsRegs, BranchInsts;
  }

  lemma OpsMore(spare: Regs, ops: seq<Op>, op: Op)
    ensures OpsRegs(spare, ops + [op]) == AfterOp(OpsRegs(spare, ops), op)
    ensures OpsInsts(spare, ops + [op]) == OpsInsts(spare, ops) + OpInsts(OpsRegs(spare, ops), op)
  {
    assert (ops + [op])[..|ops|] == ops;
  }

  lemma StepLower(t: Target, op: Op, rest: Code, pre: seq<Inst>, ops: seq<Op>, first: nat, depth: nat, spare: Regs,
      fin: seq<Inst>)
    ensures Lower(t, Step(op, rest), pre + OpsInsts(spare, ops), first, depth, OpsRegs(spare, ops), fin)
         == Lower(t, rest, pre + OpsInsts(spare, ops + [op]), first, depth, OpsRegs(spare, ops + [op]), fin)
  {
    OpsMore(spare, ops, op);
    hide OpsInsts, OpsRegs, AfterOp, OpInsts;
    assert pre + OpsInsts(spare, ops + [op]) == pre + OpsInsts(spare, ops) + OpInsts(OpsRegs(spare, ops), op);
  }

  lemma EmitHead(t: Target, blk: Block, b: nat, s: State, pre: seq<Inst>)
    ensures var s0 := OpsState(s, blk.ops);
            Emit(t, [blk], b, s, pre) == ([pre + OpsInsts(s.spare, blk.ops) + TermInsts(t, s0, b, blk.term)],
                                          TermState(t, s0, b, blk.term))
  {
  }

  lemma NoOps(spare: Regs, pre: seq<Inst>)
    ensures pre + OpsInsts(spare, []) == pre && OpsRegs(spare, []) == spare
  {
  }

  lemma AroundMore(stack: seq<Open>, o: Open, first: nat, end: nat, from: nat, to: nat)
    requires AllAround(stack, first, end) && first <= from && to <= end && Around(o, from, to)
    ensures AllAround(stack + [o], from, to) && AllAround(stack, from, to)
  {
  }

  lemma {:induction false} EmitsThen(t: Target, c: nat, yes: Code, rest: Code, ops: seq<Op>, first: nat, end: Term,
      s: State, pre: seq<Inst>)
    requires AllAround(s.stack, first, first + 1 + Size(yes) + Size(rest)) && Opened(s.stack, first) && !end.BrCond?
    requires |s.stack| + 1 + Depth(yes) <= MAX_DIV_REGIONS && |s.stack| + Depth(rest) <= MAX_DIV_REGIONS
    ensures var code, fin := IfThen(c, yes, rest), EndInsts(s.stack, first + Size(yes) + Size(rest), end);
            Emit(t, Flatten(code, ops, first, end), first, s, pre)
            == (Lower(t, code, pre + OpsInsts(s.spare, ops), first, |s.stack|, OpsRegs(s.spare, ops), fin),
                s.(spare := SpareAfter(t, code, OpsRegs(s.spare, ops))))
    decreases IfThen(c, yes, rest), 0
  {
    hide Prologue, Emit, AllAround, Opened, EndInsts, OpsInsts, OpsRegs, SaveReg, Size, Depth, Flatten, Lower;
    var x := OpsRegs(s.spare, ops);
    FlattenThen(c, yes, rest, ops, first, end);
    LowerThenParts(t, c, yes, rest, pre + OpsInsts(s.spare, ops), first, |s.stack|, x,
                   EndInsts(s.stack, first + Size(yes) + Size(rest), end));
    var m := first + 1 + Size(yes);
    var r := SaveReg(t, |s.stack|, x);
    var o := Open(r, m, m, first, false, true);
    var s1 := State(s.stack + [o], SpareNext(t, x));
    var s2 := s.(spare := SpareAfter(t, yes, s1.spare));
    var blk := Block(ops, BrCond(c, first + 1, m, m));
    var y, z := Flatten(yes, [], first + 1, Br(m)), Flatten(rest, [], m, end);
    EmitHead(t, blk, first, s, pre);
    AroundMore(s.stack, o, first, m + Size(rest), first, m);
    AroundMore(s.stack, o, first, m + Size(rest), first + 1, m);
    FallsThrough(s1.stack, m - 1, m);
    OpenedMore(s.stack, o, first, first + 1);
    QuietPrologue(s1.stack, first, m, first + 1);
    EmitSplit(t, [blk], y, first, s, pre);
    NoOps(s1.spare, []);
    EmitsNest(t, yes, [], first + 1, Br(m), s1, []);
    MergePrologue(s.stack, o, first, m + Size(rest));
    EmitSplit(t, [blk] + y, z, first, s, pre);
    NoOps(s2.spare, [Or(r)]);
    AroundMore(s.stack, o, first, m + Size(rest), m, m);
    AroundLess(s.stack, first, m + Size(rest), m);
    OpenedMore(s.stack, o, first, m);
    EmitsNest(t, rest, [], m, end, s2, [Or(r)]);
  }

  lemma AroundLess(stack: seq<Open>, first: nat, end: nat, from: nat)
    requires AllAround(stack, first, end) && first <= from
    ensures AllAround(stack, from, end)
  {
  }

  lemma OpenedMore(stack: seq<Open>, o: Open, first: nat, at: nat)
    requires Opened(stack, first) && first <= at
    ensures Opened(stack, at) && (o.cond < at ==> Opened(stack + [o], at))
  {
  }

  lemma EndsInThen(stack: seq<Open>, o: Open, b: nat)
    requires o.hasElse && o.inThen && b < o.merge
    ensures EndInsts(stack + [o], b, Br(o.merge)) == []
  {
    assert (stack + [o])[|stack|] == o;
    FallsThrough(stack + [o], b, o.merge);
  }

  lemma {:induction false} EmitsElse(t: Target, c: nat, yes: Code, no: Code, rest: Code, ops: seq<Op>, first: nat,
      end: Term, s: State, pre: seq<Inst>)
    requires AllAround(s.stack, first, first + 1 + Size(yes) + Size(no) + Size(rest))
    requires Opened(s.stack, first) && !end.BrCond?
    requires |s.stack| + 1 + Depth(yes) <= MAX_DIV_REGIONS && |s.stack| + 1 + Depth(no) <= MAX_DIV_REGIONS
    requires |s.stack| + Depth(rest) <= MAX_DIV_REGIONS
    ensures var code, fin := IfElse(c, yes, no, rest),
            EndInsts(s.stack, first + Size(yes) + Size(no) + Size(rest), end);
            Emit(t, Flatten(code, ops, first, end), first, s, pre)
            == (Lower(t, code, pre + OpsInsts(s.spare, ops), first, |s.stack|, OpsRegs(s.spare, ops), fin),
                s.(spare := SpareAfter(t, code, OpsRegs(s.spare, ops))))
    decreases IfElse(c, yes, no, rest), 0
  {
    hide Prologue, Emit, AllAround, Opened, EndInsts, OpsInsts, OpsRegs, SaveReg, Size, Depth, Flatten, Lower;
    var x := OpsRegs(s.spare, ops);
    FlattenElse(c, yes, no, rest, ops, first, end);
    LowerElseParts(t, c, yes, no, rest, pre + OpsInsts(s.spare, ops), first, |s.stack|, x,
                   EndInsts(s.stack, first + Size(yes) + Size(no) + Size(rest), end));
    var e := first + 1 + Size(yes);
    var m := e + Size(no);
    var z := m + Size(rest);
    var r := SaveReg(t, |s.stack|, x);
    var o := Open(r, e, m, first, true, true);
    var o' := o.(inThen := false);
    var s1 := State(s.stack + [o], SpareNext(t, x));
    var s2 := State(s.stack + [o'], SpareAfter(t, yes, s1.spare));
    var s3 := s.(spare := SpareAfter(t, no, s2.spare));
    var blk := Block(ops, BrCond(c, first + 1, e, m));
    var ys, ns, zs := Flatten(yes, [], first + 1, Br(m)), Flatten(no, [], e, Br(m)), Flatten(rest, [], m, end);
    EmitHead(t, blk, first, s, pre);
    AroundMore(s.stack, o, first, z, first, e);
    QuietPrologue(s1.stack, first, e, first + 1);
    EmitSplit(t, [blk], ys, first, s, pre);
    NoOps(s1.spare, []);
    AroundMore(s.stack, o, first, z, first + 1, e);
    EndsInThen(s.stack, o, e - 1);
    OpenedMore(s.stack, o, first, first + 1);
    EmitsNest(t, yes, [], first + 1, Br(m), s1, []);
    ElsePrologue(s.stack, o, first, z);
    EmitSplit(t, [blk] + ys, ns, first, s, pre);
    NoOps(s2.spare, [Xor(r), Execz(m)]);
    AroundMore(s.stack, o', first, z, e, m);
    FallsThrough(s2.stack, m - 1, m);
    OpenedMore(s.stack, o', first, e);
    EmitsNest(t, no, [], e, Br(m), s2, [Xor(r), Execz(m)]);
    MergePrologue(s.stack, o', first, z);
    EmitSplit(t, [blk] + ys + ns, zs, first, s, pre);
    NoOps(s3.spare, [Or(r)]);
    AroundLess(s.stack, first, z, m);
    OpenedMore(s.stack, o', first, m);
    EmitsNest(t, rest, [], m, end, s3, [Or(r)]);
  }

  lemma {:induction false} EmitsWhile(t: Target, head: seq<Op>, c: nat, body: Code, rest: Code, ops: seq<Op>,
      first: nat, end: Term, s: State, pre: seq<Inst>)
    requires AllAround(s.stack, first, first + 2 + Size(body) + Size(rest)) && Opened(s.stack, first) && !end.BrCond?
    requires |s.stack| + 1 + Depth(body) <= MAX_DIV_REGIONS && |s.stack| + Depth(rest) <= MAX_DIV_REGIONS
    ensures var code, fin := While(head, c, body, rest), EndInsts(s.stack, first + 1 + Size(body) + Size(rest), end);
            Emit(t, Flatten(code, ops, first, end), first, s, pre)
            == (Lower(t, code, pre + OpsInsts(s.spare, ops), first, |s.stack|, OpsRegs(s.spare, ops), fin),
                s.(spare := SpareAfter(t, code, OpsRegs(s.spare, ops))))
    decreases While(head, c, body, rest), 0
  {
    hide Prologue, Emit, AllAround, Opened, EndInsts, OpsInsts, OpsRegs, SaveReg, Size, Depth, Flatten, Lower;
    var x0 := OpsRegs(s.spare, ops);
    var x := OpsRegs(x0, head);
    var h, m := first + 1, first + 2 + Size(body);
    var z := m + Size(rest);
    FlattenWhile(head, c, body, rest, ops, first, end);
    LowerWhileParts(t, head, c, body, rest, pre + OpsInsts(s.spare, ops), first, |s.stack|, x0,
                    EndInsts(s.stack, first + 1 + Size(body) + Size(rest), end));
    var r := SaveReg(t, |s.stack|, x);
    var o := Open(r, m, m, h, false, true);
    var s0 := s.(spare := x0);
    var s1 := State(s.stack + [o], SpareNext(t, x));
    var s2 := s.(spare := SpareAfter(t, body, s1.spare));
    var b0, b1 := Block(ops, Br(h)), Block(head, BrCond(c, h + 1, m, m));
    var ys, zs := Flatten(body, [], h + 1, Br(h)), Flatten(rest, [], m, end);
    EnterLoop(t, ops, first, s, pre);
    QuietPrologue(s.stack, first, z, h);
    EmitHead(t, b1, h, s0, []);
    HeadBlock(OpsInsts(x0, head), [Cmp(c), SaveExec(r), Execz(m)]);
    EmitSplit(t, [b0], [b1], first, s, pre);
    AroundMore(s.stack, o, first, z, h, m);
    QuietPrologue(s1.stack, h, m, h + 1);
    EmitSplit(t, [b0] + [b1], ys, first, s, pre);
    NoOps(s1.spare, []);
    AroundMore(s.stack, o, first, z, h + 1, m);
    OpenedMore(s.stack, o, first, h + 1);
    OpenedMore(s.stack, o, first, h);
    BackEnd(s.stack, o, m - 1, h, m);
    EmitsNest(t, body, [], h + 1, Br(h), s1, []);
    MergePrologue(s.stack, o, first, z);
    EmitSplit(t, [b0] + [b1] + ys, zs, first, s, pre);
    NoOps(s2.spare, [Or(r)]);
    AroundLess(s.stack, first, z, m);
    OpenedMore(s.stack, o, first, m);
    EmitsNest(t, rest, [], m, end, s2, [Or(r)]);
  }

  lemma HeadBlock(x: seq<Inst>, y: seq<Inst>)
    ensures [] + x + y == x + y
  {
  }

  /** The block before a loop falls through to its head. */
  lemma EnterLoop(t: Target, ops: seq<Op>, first: nat, s: State, pre: seq<Inst>)
    ensures Emit(t, [Block(ops, Br(first + 1))], first, s, pre)
         == ([pre + OpsInsts(s.spare, ops)], s.(spare := OpsRegs(s.spare, ops)))
  {
    hide Emit, OpsInsts, OpsRegs;
    EmitHead(t, Block(ops, Br(first + 1)), first, s, pre);
    FallsThrough(s.stack, first, first + 1);
    NoneBefore(pre + OpsInsts(s.spare, ops));
  }

  lemma TopMerge(all: seq<Open>, di: nat, b: nat)
    requires 0 < di <= |all|
    ensures MergeInsts(all[..di], b)
            == (if all[di - 1].merge == b then [Or(all[di - 1].saved)] else []) + MergeInsts(all[..di - 1], b)
    ensures Merges(all[..di], b) == Merges(all[..di - 1], b) + if all[di - 1].merge == b then 1 else 0
  {
    assert all[..di][..di - 1] == all[..di - 1];
  }

  lemma TopRestore(all: seq<Open>, di: nat, target: nat)
    requires 0 < di <= |all|
    ensures Restores(all[..di], target)
            == (if all[di - 1].cond >= target then [Or(all[di - 1].saved)] else []) + Restores(all[..di - 1], target)
  {
    assert all[..di][..di - 1] == all[..di - 1];
  }

  lemma NoFlips(b: nat)
    ensures FlipStack([], b) == [] && FlipInsts([], b) == []
  {
  }

  lemma TopFlip(all: seq<Open>, di: nat, b: nat)
    requires di < |all|
    ensures var o := all[di];
            && FlipStack(all[..di + 1], b) == FlipStack(all[..di], b) + [if Flips(o, b) then o.(inThen := false) else o]
            && FlipInsts(all[..di + 1], b)
                 == FlipInsts(all[..di], b) + if Flips(o, b) then [Xor(o.saved), Execz(o.merge)] else []
  {
    assert all[..di + 1][..di] == all[..di];
  }

  lemma EmitFromStart(t: Target, blocks: seq<Block>, spare: Regs)
    ensures EmitFrom(t, blocks, 0, State([], spare)) == Emit(t, blocks, 0, State([], spare), []).0
  {
    NoPrologue();
    assert blocks[0..] == blocks;
  }

  lemma NoRestores(target: nat)
    ensures Restores([], target) == []
  {
  }

  lemma NoMerges(b: nat)
    ensures MergeInsts([], b) == [] && Merges([], b) == 0
  {
  }

  /** What is emitted from block b on, its start included. */
  function EmitFrom(t: Target, blocks: seq<Block>, b: nat, s: State): (r: seq<seq<Inst>>)
    requires b <= |blocks|
    ensures |r| == |blocks| - b
  {
    var p := Prologue(s.stack, b);
    Emit(t, blocks[b..], b, s.(stack := p.1), p.0).0
  }

  lemma EmitOne(t: Target, blocks: seq<Block>, b: nat, s: State)
    requires b < |blocks|
    ensures var p := Prologue(s.stack, b);
            var s0 := OpsState(s.(stack := p.1), blocks[b].ops);
            var body := p.0 + OpsInsts(s.spare, blocks[b].ops) + TermInsts(t, s0, b, blocks[b].term);
            EmitFrom(t, blocks, b, s) == [body] + EmitFrom(t, blocks, b + 1, TermState(t, s0, b, blocks[b].term))
  {
    hide Prologue, OpsInsts, OpsRegs, TermInsts, TermState;
    assert blocks[b..][1..] == blocks[b + 1..];
  }

  /** The part of the selector that lowers divergent control flow.  Blocks are numbered by their
      place in the layout. */
  class Selector {
    const wide: bool
    var next: nat
    var esave: nat
    var spare: nat
    var at: map<nat, nat>
    var stack: seq<Open>
    var cur: seq<Inst>
    var code: seq<seq<Inst>>

    constructor (wide: bool, next: nat, spare: nat)
      ensures this.wide == wide && Given() == Regs(spare, next, UNSET, map[])
      ensures stack == [] && cur == [] && code == []
    {
      this.wide, this.next, this.spare := wide, next, spare;
      esave, at, stack, cur, code := UNSET, map[], [], [], [];
    }

    function Aim(): Target {
      Target(wide)
    }

    /** The registers given out so far. */
    function Given(): Regs
      reads this
    {
      Regs(spare, next, esave, at)
    }

    /** Flip to the false lanes of the regions whose else-arm starts at b. */
    method FlipRegions(b: nat)
      modifies this`stack, this`cur
      ensures stack == FlipStack(old(stack), b) && cur == FlipInsts(old(stack), b)
    {
      hide FlipStack, FlipInsts;
      ghost var was := stack;
      NoFlips(b);
      cur := [];
      for di := 0 to |stack|
        modifies this`stack, this`cur
        invariant |stack| == |was| && stack[di..] == was[di..]
        invariant stack[..di] == FlipStack(was[..di], b) && cur == FlipInsts(was[..di], b)
      {
        TopFlip(was, di, b);
        assert stack[di] == stack[di..][0] == was[di];
        assert stack[di + 1..] == stack[di..][1..] && was[di + 1..] == was[di..][1..];
        if stack[di].hasElse && stack[di].onFalse == b {
          stack := stack[di := stack[di].(inThen := false)];
          cur := cur + [Xor(stack[di].saved), Execz(stack[di].merge)];
        }
      }
      assert was[..|was|] == was;
    }

    /** Restore the lanes of the regions that merge at b and close them, innermost first. */
    method CloseRegions(b: nat)
      modifies this`stack, this`cur
      ensures cur == old(cur) + MergeInsts(old(stack), b) && stack == old(stack)[..|old(stack)| - Merges(old(stack), b)]
    {
      hide MergeInsts, Merges;
      var all := stack;
      ghost var flips := cur;
      var di := |all|;
      assert all[..di] == all;
      while di > 0
        modifies this`stack, this`cur
        invariant 0 <= di <= |all|
        invariant cur + MergeInsts(all[..di], b) == flips + MergeInsts(all, b)
        invariant Merges(all[..di], b) <= Merges(all, b)
        invariant stack == all[..|all| - Merges(all, b) + Merges(all[..di], b)]
      {
        TopMerge(all, di, b);
        if all[di - 1].merge == b {
          cur := cur + [Or(all[di - 1].saved)];
          stack := stack[..|stack| - 1];
        }
        di := di - 1;
      }
      NoMerges(b);
      assert cur + [] == cur;
    }

    /** Mask changes at a block start: flips first, then restores that close regions. */
    method StartBlock(b: nat)
      modifies this`stack, this`cur
      ensures (cur, stack) == Prologue(old(stack), b)
    {
      FlipRegions(b);
      CloseRegions(b);
    }

    method IsSuppressed(target: nat) returns (yes: bool)
      ensures yes == Suppressed(stack, target)
    {
      for di := 0 to |stack|
        invariant forall i :: 0 <= i < di ==> !(stack[i].hasElse && stack[i].inThen && stack[i].merge == target)
      {
        if stack[di].hasElse && stack[di].inThen && stack[di].merge == target {
          return true;
        }
      }
      return false;
    }

    /** Give back, before a back edge, the lanes of every region opened since its target. */
    method RestoreSince(target: nat)
      modifies this`cur
      ensures cur == old(cur) + Restores(stack, target)
    {
      hide Restores;
      ghost var was := cur;
      var di := |stack|;
      assert stack[..di] == stack;
      while di > 0
        modifies this`cur
        invariant 0 <= di <= |stack| && cur + Restores(stack[..di], target) == was + Restores(stack, target)
      {
        TopRestore(stack, di, target);
        if stack[di - 1].cond >= target {
          cur := cur + [Or(stack[di - 1].saved)];
        }
        di := di - 1;
      }
      NoRestores(target);
      assert cur + [] == cur;
    }

    /** An unconditional branch. */
    method BranchTo(b: nat, target: nat)
      modifies this`cur
      ensures cur == old(cur) + BranchInsts(stack, b, target)
    {
      hide Suppressed, Restores;
      var suppress := IsSuppressed(target);
      if suppress {
        return;
      }
      if target <= b {
        RestoreSince(target);
      }
      if target == b + 1 {
        return;
      }
      cur := cur + [Branch(target)];
    }

    /** A divergent conditional branch opens a region. */
    method CondBranch(b: nat, c: nat, onFalse: nat, merge: nat)
      modifies this`esave, this`spare, this`stack, this`cur
      ensures forall onTrue ::
                cur == old(cur) +
                TermInsts(Aim(), State(old(stack), old(Given())), b, BrCond(c, onTrue, onFalse, merge))
      ensures forall onTrue ::
                State(stack, Given()) ==
                TermState(Aim(), State(old(stack), old(Given())), b, BrCond(c, onTrue, onFalse, merge))
    {
      cur := cur + [Cmp(c)];
      var saved;
      if wide {
        if esave == UNSET {
          esave := next;
          if esave % 2 == 1 {
            esave := esave + 1;
          }
        }
        saved := esave + |stack| * 2;
        if saved + 1 >= MAX_SGPRS {
          saved := MAX_SGPRS - 2;
        }
      } else {
        saved := MAX_SGPRS + spare;
        spare := spare + 1;
      }
      cur := cur + [SaveExec(saved)] + [Execz(onFalse)];
      if |stack| < MAX_DIV_REGIONS {
        stack := stack + [Open(saved, onFalse, merge, b, merge != onFalse, true)];
      }
    }

    /** A reference to a global takes the next even scalar pair for its address, if there is one. */
    method TakeAddress(v: nat)
      modifies this`next, this`at, this`cur
      ensures cur == old(cur) + OpInsts(old(Given()), Take(v)) && Given() == AfterOp(old(Given()), Take(v))
    {
      var sbase := next;
      if sbase % 2 == 1 {
        sbase := sbase + 1;
      }
      if sbase + 1 >= MAX_SGPRS {
        return;
      }
      next := sbase + 2;
      cur := cur + [TakePair(sbase, v)];
      at := at[v := sbase];
    }

    /** The operations of a block. */
    method Operations(ops: seq<Op>)
      modifies this`next, this`at, this`cur
      ensures cur == old(cur) + OpsInsts(old(Given()), ops) && Given() == OpsRegs(old(Given()), ops)
    {
      hide OpsInsts, OpsRegs, OpInsts, AfterOp;
      ghost var was, x := cur, Given();
      NoOps(x, cur);
      for i := 0 to |ops|
        modifies this`next, this`at, this`cur
        invariant cur == was + OpsInsts(x, ops[..i]) && Given() == OpsRegs(x, ops[..i])
      {
        assert ops[..i + 1] == ops[..i] + [ops[i]];
        OpsMore(x, ops[..i], ops[i]);
        OpOne(Given(), ops[i]);
        match ops[i]
        case Lane(id) => cur := cur + [LaneOp(id)];
        case Take(v) => TakeAddress(v);
        case With(id, v) => cur := cur + [LaneUse(id, if v in at then at[v] else UNSET)];
      }
      assert ops[..|ops|] == ops;
    }

    method Body(b: nat, blk: Block)
      modifies this`esave, this`spare, this`next, this`at, this`stack, this`cur
      ensures var s0 := OpsState(State(old(stack), old(Given())), blk.ops);
              && cur == old(cur) + OpsInsts(old(Given()), blk.ops) + TermInsts(Aim(), s0, b, blk.term)
              && State(stack, Given()) == TermState(Aim(), s0, b, blk.term)
    {
      hide OpsInsts, OpsRegs;
      Operations(blk.ops);
      match blk.term
      case Br(target) => BranchTo(b, target);
      case BrCond(c, onTrue, onFalse, merge) =>
        CondBranch(b, c, onFalse, merge);
      case Ret => cur := cur + [EndPgm];
    }

    /** All blocks in layout order. */
    method Select(blocks: seq<Block>)
      requires stack == [] && code == []
      modifies this
      ensures code == Emit(Aim(), blocks, 0, State([], old(Given())), []).0
    {
      hide Prologue, OpsInsts, OpsRegs, TermInsts, TermState, EmitFrom, Emit;
      ghost var whole := EmitFrom(Aim(), blocks, 0, State([], Given()));
      EmitFromStart(Aim(), blocks, Given());
      for b := 0 to |blocks|
        modifies this
        invariant code + EmitFrom(Aim(), blocks, b, State(stack, Given())) == whole
      {
        EmitOne(Aim(), blocks, b, State(stack, Given()));
        StartBlock(b);
        Body(b, blocks[b]);
        code := code + [cur];
      }
      assert code + [] == code;
    }
  }

  lemma OpOne(spare: Regs, op: Op)
    ensures op.Lane? ==> OpInsts(spare, op) == [LaneOp(op.id)] && AfterOp(spare, op) == spare
    ensures op.With? ==> AfterOp(spare, op) == spare
    ensures op.With? ==>
              OpInsts(spare, op) == [LaneUse(op.id, if op.value in spare.at then spare.at[op.value] else UNSET)]
  {
  }

  lemma NoPrologue()
    ensures Prologue([], 0) == ([], [])
  {
    NoneBefore([]);
  }

  /** The result for the whole pass.  Run from its first block, the selected program ends; EXEC is
      what it was, and every lane that was active is where it would be had it run alone through the
      source blocks.  The lanes must leave their loops, and not be changed by running a loop's head
      again.  Nothing must be written over a save register while its region is open, nor over an
      address that is still used. */
  lemma LanesAsIfAlone<L(!new)>(sem: Sem<L>, t: Target, code: Code, spare: Regs, w: Wave<L>) returns (w': Wave<L>)
    requires Depth(code) <= MAX_DIV_REGIONS && Distinct(t, code, 0, spare) && Fed(t, code, 0, spare, {})
    requires Settled(sem, code) && AllStop(sem, code, w)
    ensures var blocks := Flatten(code, [], 0, Ret);
            var prog := Emit(t, blocks, 0, State([], spare), []).0;
            && Reaches(sem, prog, 0, w, |prog|, w') && w'.exec == w.exec && |w'.lanes| == |w.lanes|
            && forall k :: 0 <= k < |w.lanes| ==>
                 if k in w.exec then LaneReaches(sem, blocks, 0, w.lanes[k], |blocks|, w'.lanes[k])
                 else w'.lanes[k] == w.lanes[k]
  {
    hide LaneReaches, Reaches, Emit, Lower, Flatten, RunInsts, Settled, Eval, Stops, Distinct, Fed, Saves, SpareAfter;
    hide Depth, RunOps;
    var blocks := Flatten(code, [], 0, Ret);
    EmitsNest(t, code, [], 0, Ret, State([], spare), []);
    NoOps(spare, []);
    var prog := Lower(t, code, [], 0, 0, spare, [EndPgm]);
    assert prog[0..|prog|] == prog;
    RunNothing(sem, w);
    w' := Region(sem, prog, t, code, [], 0, 0, spare, {}, [EndPgm], w, w);
    RunStops(sem, w');
    forall k | 0 <= k < |w.lanes|
      ensures if k in w.exec then LaneReaches(sem, blocks, 0, w.lanes[k], |blocks|, w'.lanes[k])
              else w'.lanes[k] == w.lanes[k]
    {
      if k in w.exec {
        LaneAlone(sem, code, w.lanes[k]);
      }
    }
  }

  lemma RunStops<L>(sem: Sem<L>, w: Wave<L>)
    ensures RunInsts(sem, [EndPgm], w) == (w, Stop)
  {
  }
}
