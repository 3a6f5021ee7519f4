/** From the blocks of a function, in whatever order they were created, to its masked code. */
module DivergentFunction {
  import opened DivergentCode
  import opened ExecMachine
  import opened ExecRegisters
  import opened ExecLowering
  import opened BlockOrder
  import opened Permutations

  // ---- Layout positions ----

  ghost predicate Inverse(bm: seq<nat>, ord: seq<nat>) {
    |bm| == |ord| && forall i :: 0 <= i < |ord| ==> ord[i] < |bm| && bm[ord[i]] == i
  }

  /** The position of every block in the layout. */
  method BlockMap(ord: seq<nat>) returns (bm: seq<nat>)
    requires Permutation(|ord|, ord)
    ensures Inverse(bm, ord)
  {
    bm := seq(|ord|, _ => 0);
    for i := 0 to |ord|
      invariant |bm| == |ord| && forall j :: 0 <= j < i ==> bm[ord[j]] == j
    {
      bm := bm[ord[i] := i];
    }
  }

  ghost predicate TargetsBelow(t: Term, n: nat) {
    match t
    case Br(b) => b < n
    case BrCond(_, yes, no, merge) => yes < n && no < n && merge < n
    case Ret => true
  }

  ghost predicate AllBelow(blocks: seq<Block>, n: nat) {
    forall i :: 0 <= i < |blocks| ==> TargetsBelow(blocks[i].term, n)
  }

  lemma BelowAppend(x: seq<Block>, y: seq<Block>, n: nat)
    requires AllBelow(x, n) && AllBelow(y, n)
    ensures AllBelow(x + y, n)
  {
  }

  lemma {:induction false} NestTargets(code: Code, ops: seq<Op>, first: nat, end: Term, n: nat)
    requires first + Size(code) <= n && TargetsBelow(end, n)
    ensures AllBelow(Flatten(code, ops, first, end), n)
    decreases code
  {
    hide AllBelow, Flatten;
    match code
    case Done =>
      DoneFlatten(ops, first, end);
      BelowOne(Block(ops, end), n);
    case Step(op, rest) =>
      StepFlatten(op, rest, ops, first, end);
      NestTargets(rest, ops + [op], first, end, n);
    case IfThen(c, yes, rest) =>
      FlattenThen(c, yes, rest, ops, first, end);
      var m := first + 1 + Size(yes);
      var b := Block(ops, BrCond(c, first + 1, m, m));
      BelowOne(b, n);
      NestTargets(yes, [], first + 1, Br(m), n);
      NestTargets(rest, [], m, end, n);
      BelowAppend([b], Flatten(yes, [], first + 1, Br(m)), n);
      BelowAppend([b] + Flatten(yes, [], first + 1, Br(m)), Flatten(rest, [], m, end), n);
    case IfElse(c, yes, no, rest) =>
      FlattenElse(c, yes, no, rest, ops, first, end);
      var e := first + 1 + Size(yes);
      var m := e + Size(no);
      var b := Block(ops, BrCond(c, first + 1, e, m));
      BelowOne(b, n);
      NestTargets(yes, [], first + 1, Br(m), n);
      NestTargets(no, [], e, Br(m), n);
      NestTargets(rest, [], m, end, n);
      BelowAppend([b], Flatten(yes, [], first + 1, Br(m)), n);
      BelowAppend([b] + Flatten(yes, [], first + 1, Br(m)), Flatten(no, [], e, Br(m)), n);
      BelowAppend([b] + Flatten(yes, [], first + 1, Br(m)) + Flatten(no, [], e, Br(m)), Flatten(rest, [], m, end), n);
    case While(head, c, body, rest) =>
      FlattenWhile(head, c, body, rest, ops, first, end);
      var h, m := first + 1, first + 2 + Size(body);
      var b, b' := Block(ops, Br(h)), Block(head, BrCond(c, h + 1, m, m));
      BelowOne(b, n);
      BelowOne(b', n);
      NestTargets(body, [], h + 1, Br(h), n);
      NestTargets(rest, [], m, end, n);
      BelowAppend([b], [b'], n);
      BelowAppend([b] + [b'], Flatten(body, [], h + 1, Br(h)), n);
      BelowAppend([b] + [b'] + Flatten(body, [], h + 1, Br(h)), Flatten(rest, [], m, end), n);
  }

  lemma DoneFlatten(ops: seq<Op>, first: nat, end: Term)
    ensures Flatten(Done, ops, first, end) == [Block(ops, end)]
  {
  }

  lemma BelowOne(b: Block, n: nat)
    requires TargetsBelow(b.term, n)
    ensures AllBelow([b], n)
  {
  }

  lemma RenameBack(name: seq<nat>, bm: seq<nat>, t: Term)
    requires Inverse(bm, name) && TargetsBelow(t, |name|)
    ensures RenameTerm(bm, RenameTerm(name, t)) == t
  {
  }

  /** Blocks in layout order with layout numbers. */
  function Arrange(cfg: seq<Block>, ord: seq<nat>, bm: seq<nat>): seq<Block>
    requires forall i :: 0 <= i < |ord| ==> ord[i] < |cfg|
  {
    seq(|ord|, i requires 0 <= i < |ord| => Block(cfg[ord[i]].ops, RenameTerm(bm, cfg[ord[i]].term)))
  }

  lemma ArrangeNest(cfg: seq<Block>, name: seq<nat>, bm: seq<nat>, code: Code)
    requires Named(cfg, name, Flatten(code, [], 0, Ret)) && Inverse(bm, name)
    ensures Arrange(cfg, name, bm) == Flatten(code, [], 0, Ret)
  {
    hide Flatten;
    var blocks := Flatten(code, [], 0, Ret);
    NestTargets(code, [], 0, Ret, |name|);
    forall i | 0 <= i < |name|
      ensures Arrange(cfg, name, bm)[i] == blocks[i]
    {
      RenameBack(name, bm, blocks[i].term);
    }
  }

  /** cfg is the nest code under some numbering with the entry first. */
  ghost predicate IsNest(cfg: seq<Block>, name: seq<nat>, code: Code) {
    Named(cfg, name, Flatten(code, [], 0, Ret)) && |name| > 0 && name[0] == 0 && Peak(code) <= BLK_STK_MAX
  }

  lemma OrderIsLayout(cfg: seq<Block>, ord: seq<nat>, bm: seq<nat>, name: seq<nat>, code: Code)
    requires |cfg| <= BLK_ORD_MAX && IsNest(cfg, name, code)
    requires Permutation(|cfg|, ord) && Walk(cfg, [Frame(0, NO_BLOCK)], []) <= ord && Inverse(bm, ord)
    ensures Arrange(cfg, ord, bm) == Flatten(code, [], 0, Ret)
  {
    hide Walk, Flatten, Arrange, Inverse, Named, Partial, Peak;
    NamedSize(cfg, name, Flatten(code, [], 0, Ret));
    NestOrder(cfg, name, code);
    SamePrefix(name, ord);
    ArrangeNest(cfg, name, bm, code);
  }

  lemma NamedSize(cfg: seq<Block>, name: seq<nat>, blocks: seq<Block>)
    requires Named(cfg, name, blocks)
    ensures |cfg| == |name|
  {
  }

  lemma SamePrefix(a: seq<nat>, b: seq<nat>)
    requires a <= b && |a| == |b|
    ensures a == b
  {
  }

  /** Nothing has been given out but the scalar registers below next and the virtual ones below spare. */
  function StartRegs(next: nat, spare: nat): Regs {
    Regs(spare, next, UNSET, map[])
  }

  /** Order the blocks, number them by position, select.  A nest is selected in its layout order
      whatever numbers its blocks were created with. */
  method LowerFunction(cfg: seq<Block>, wide: bool, next: nat, spare: nat) returns (prog: seq<seq<Inst>>)
    requires |cfg| <= BLK_ORD_MAX
    ensures forall name, code :: IsNest(cfg, name, code) ==>
              prog == Emit(Target(wide), Flatten(code, [], 0, Ret), 0, State([], StartRegs(next, spare)), []).0
  {
    hide Walk, Flatten, Arrange, IsNest, Emit;
    var ord := BuildBlockOrder(cfg);
    var bm := BlockMap(ord);
    var blocks := Arrange(cfg, ord, bm);
    var sel := new Selector(wide, next, spare);
    sel.Select(blocks);
    prog := sel.code;
    forall name, code | IsNest(cfg, name, code)
      ensures prog == Emit(Target(wide), Flatten(code, [], 0, Ret), 0, State([], StartRegs(next, spare)), []).0
    {
      OrderIsLayout(cfg, ord, bm, name, code);
    }
  }

  /** The condition on the nest under which the result below holds: regions no deeper than the stack,
      no save register written while its region is open, no address overwritten while it is used. */
  ghost predicate Separate(t: Target, code: Code, spare: Regs) {
    Depth(code) <= MAX_DIV_REGIONS && Distinct(t, code, 0, spare) && Fed(t, code, 0, spare, {})
  }

  /** What that comes to.  On narrow waves saves and addresses never meet.  On wide waves, within the
      register limit, no pair number d may be taken while a region of depth d is open, counting from
      the first region on; without addresses the deepest save pair must be below the limit. */
  lemma SeparateIff(t: Target, code: Code, next: nat, spare: nat)
    ensures var x := StartRegs(next, spare);
            && (!t.wide ==> (Separate(t, code, x) <==> Depth(code) <= MAX_DIV_REGIONS && Fed(t, code, 0, x, {})))
            && (t.wide && Room(t, code, 0, x) ==>
                 (Separate(t, code, x) <==>
                    Depth(code) <= MAX_DIV_REGIONS && Apart(code, 0, 0, false) && Fed(t, code, 0, x, {})))
            && (t.wide && NoAddresses(code) ==>
                 (Separate(t, code, x) <==>
                  Depth(code) <= MAX_DIV_REGIONS
                  && (Depth(code) <= 1 || Even(next) + 2 * (Depth(code) - 1) + 1 < MAX_SGPRS)))
  {
    hide Distinct, Fed, Room, Apart;
    var x := StartRegs(next, spare);
    if !t.wide {
      NarrowDistinct(t, code, 0, x);
    } else {
      if Room(t, code, 0, x) {
        DistinctIffApart(t, code, 0, x);
      }
      if NoAddresses(code) {
        NoneFed(t, code, 0, x, {});
        DistinctIffFits(t, code, x);
      }
    }
  }

  predicate NoAddresses(code: Code) {
    match code
    case Done => true
    case Step(op, rest) => op.Lane? && NoAddresses(rest)
    case IfThen(_, yes, rest) => NoAddresses(yes) && NoAddresses(rest)
    case IfElse(_, yes, no, rest) => NoAddresses(yes) && NoAddresses(no) && NoAddresses(rest)
    case While(head, _, body, rest) => LaneOnly(head) && NoAddresses(body) && NoAddresses(rest)
  }

  predicate LaneOnly(ops: seq<Op>) {
    forall i :: 0 <= i < |ops| ==> ops[i].Lane?
  }

  lemma {:induction false} LaneOnlyFed(spare: Regs, ops: seq<Op>, good: set<nat>)
    requires LaneOnly(ops)
    ensures OpsFed(spare, ops, good) && TakesOps(ops) == 0
  {
    if ops != [] {
      LaneOnlyFed(spare, ops[..|ops| - 1], good);
    }
  }

  lemma {:induction false} NoneFed(t: Target, code: Code, depth: nat, spare: Regs, good: set<nat>)
    requires NoAddresses(code)
    ensures Fed(t, code, depth, spare, good) && Takes(code) == 0
    decreases code
  {
    hide Saves, Spared, SaveReg, SpareNext, SpareAfter, OpsRegs, GoodOps, OpsFed, LoopWrites, TakesOps, LaneOnly;
    match code
    case Done =>
    case Step(op, rest) => NoneFed(t, rest, depth, spare, good);
    case IfThen(_, yes, rest) =>
      var f1 := SpareNext(t, spare);
      var g1 := Spared(spare, good, {SaveReg(t, depth, spare)});
      NoneFed(t, yes, depth + 1, f1, g1);
      NoneFed(t, rest, depth, SpareAfter(t, yes, f1), Spared(spare, g1, Saves(t, yes, depth + 1, f1)));
    case IfElse(_, yes, no, rest) =>
      var f1 := SpareNext(t, spare);
      var f2 := SpareAfter(t, yes, f1);
      var g1 := Spared(spare, good, {SaveReg(t, depth, spare)});
      var g2 := Spared(spare, g1, Saves(t, yes, depth + 1, f1));
      NoneFed(t, yes, depth + 1, f1, g1);
      NoneFed(t, no, depth + 1, f2, g2);
      NoneFed(t, rest, depth, SpareAfter(t, no, f2), Spared(spare, g2, Saves(t, no, depth + 1, f2)));
    case While(head, _, body, rest) =>
      var x := OpsRegs(spare, head);
      var f1 := SpareNext(t, x);
      var g0 := Spared(spare, good, LoopWrites(t, head, body, depth, spare));
      var g1 := Spared(x, GoodOps(spare, head, g0), {SaveReg(t, depth, x)});
      LaneOnlyFed(spare, head, g0);
      NoneFed(t, body, depth + 1, f1, g1);
      NoneFed(t, rest, depth, SpareAfter(t, body, f1), g1);
  }

  /** Every lane of the selected program as if alone, EXEC as it was, for lanes that leave their loops
      and are not changed by running a loop's head again. */
  lemma LowerFunctionCorrect<L(!new)>(sem: Sem<L>, cfg: seq<Block>, name: seq<nat>, code: Code, prog: seq<seq<Inst>>,
      wide: bool, next: nat, spare: nat, w: Wave<L>) returns (w': Wave<L>)
    requires IsNest(cfg, name, code) && Separate(Target(wide), code, StartRegs(next, spare))
    requires prog == Emit(Target(wide), Flatten(code, [], 0, Ret), 0, State([], StartRegs(next, spare)), []).0
    requires Settled(sem, code) && AllStop(sem, code, w)
    ensures Reaches(sem, prog, 0, w, |prog|, w') && w'.exec == w.exec && |w'.lanes| == |w.lanes|
    ensures var blocks := Flatten(code, [], 0, Ret);
            forall k :: 0 <= k < |w.lanes| ==>
              if k in w.exec then LaneReaches(sem, blocks, 0, w.lanes[k], |blocks|, w'.lanes[k])
              else w'.lanes[k] == w.lanes[k]
  {
    hide Flatten, Emit, Reaches, LaneReaches, Distinct, Fed, Settled, AllStop;
    w' := LanesAsIfAlone(sem, Target(wide), code, StartRegs(next, spare), w);
  }
}
