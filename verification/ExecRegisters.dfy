/** When the registers of open regions are their own: exact conditions, and what happens otherwise. */
module ExecRegisters {
  import opened DivergentCode
  import opened ExecMachine

  // ---- When simultaneously open regions have registers of their own ----

  lemma {:induction false} SpareGrows(t: Target, code: Code, spare: Regs)
    ensures spare.spare <= SpareAfter(t, code, spare).spare
  {
    match code
    case Done =>
    case Step(op, rest) => SpareGrows(t, rest, AfterOp(spare, op));
    case IfThen(_, yes, rest) =>
      SpareGrows(t, yes, SpareNext(t, spare));
      SpareGrows(t, rest, SpareAfter(t, yes, SpareNext(t, spare)));
    case IfElse(_, yes, no, rest) =>
      var f2 := SpareAfter(t, yes, SpareNext(t, spare));
      SpareGrows(t, yes, SpareNext(t, spare));
      SpareGrows(t, no, f2);
      SpareGrows(t, rest, SpareAfter(t, no, f2));
    case While(head, _, body, rest) =>
      OpsKeep(spare, head);
      SpareGrows(t, body, SpareNext(t, OpsRegs(spare, head)));
      SpareGrows(t, rest, SpareAfter(t, body, SpareNext(t, OpsRegs(spare, head))));
  }

  /** Operations give out no virtual register, fix no save pair, and take scalar pairs only. */
  lemma {:induction false} OpsKeep(spare: Regs, ops: seq<Op>)
    ensures OpsRegs(spare, ops).spare == spare.spare && OpsRegs(spare, ops).base == spare.base
    ensures forall r :: r in TakenOps(spare, ops) ==> r < MAX_SGPRS
  {
    if ops != [] {
      OpsKeep(spare, ops[..|ops| - 1]);
    }
  }

  /** On narrow waves a virtual register given out before is not written again. */
  lemma {:induction false} NarrowAbove(t: Target, code: Code, depth: nat, spare: Regs, r: nat)
    requires !t.wide && MAX_SGPRS <= r < MAX_SGPRS + spare.spare
    ensures r !in Saves(t, code, depth, spare)
    decreases code
  {
    match code
    case Done =>
    case Step(op, rest) => NarrowAbove(t, rest, depth, AfterOp(spare, op), r);
    case IfThen(_, yes, rest) =>
      var f1 := SpareNext(t, spare);
      SpareGrows(t, yes, f1);
      NarrowAbove(t, yes, depth + 1, f1, r);
      NarrowAbove(t, rest, depth, SpareAfter(t, yes, f1), r);
    case IfElse(_, yes, no, rest) =>
      var f1 := SpareNext(t, spare);
      var f2 := SpareAfter(t, yes, f1);
      SpareGrows(t, yes, f1);
      SpareGrows(t, no, f2);
      NarrowAbove(t, yes, depth + 1, f1, r);
      NarrowAbove(t, no, depth + 1, f2, r);
      NarrowAbove(t, rest, depth, SpareAfter(t, no, f2), r);
    case While(head, _, body, rest) =>
      OpsKeep(spare, head);
      var f1 := SpareNext(t, OpsRegs(spare, head));
      SpareGrows(t, body, f1);
      NarrowAbove(t, body, depth + 1, f1, r);
      NarrowAbove(t, rest, depth, SpareAfter(t, body, f1), r);
  }

  /** Narrow waves never share a save register. */
  lemma {:induction false} NarrowDistinct(t: Target, code: Code, depth: nat, spare: Regs)
    requires !t.wide
    ensures Distinct(t, code, depth, spare)
    decreases code
  {
    hide Saves;
    var r := SaveReg(t, depth, spare);
    match code
    case Done =>
    case Step(op, rest) => NarrowDistinct(t, rest, depth, AfterOp(spare, op));
    case IfThen(_, yes, rest) =>
      var f1 := SpareNext(t, spare);
      NarrowAbove(t, yes, depth + 1, f1, r);
      NarrowDistinct(t, yes, depth + 1, f1);
      NarrowDistinct(t, rest, depth, SpareAfter(t, yes, f1));
    case IfElse(_, yes, no, rest) =>
      var f1 := SpareNext(t, spare);
      var f2 := SpareAfter(t, yes, f1);
      SpareGrows(t, yes, f1);
      NarrowAbove(t, yes, depth + 1, f1, r);
      NarrowAbove(t, no, depth + 1, f2, r);
      NarrowDistinct(t, yes, depth + 1, f1);
      NarrowDistinct(t, no, depth + 1, f2);
      NarrowDistinct(t, rest, depth, SpareAfter(t, no, f2));
    case While(head, _, body, rest) =>
      var x := OpsRegs(spare, head);
      var f1 := SpareNext(t, x);
      NarrowAbove(t, body, depth + 1, f1, SaveReg(t, depth, x));
      NarrowDistinct(t, body, depth + 1, f1);
      NarrowDistinct(t, rest, depth, SpareAfter(t, body, f1));
  }

  /** How many pairs a nest takes. */
  function Takes(code: Code): nat {
    match code
    case Done => 0
    case Step(op, rest) => (if op.Take? then 1 else 0) + Takes(rest)
    case IfThen(_, yes, rest) => Takes(yes) + Takes(rest)
    case IfElse(_, yes, no, rest) => Takes(yes) + Takes(no) + Takes(rest)
    case While(head, _, body, rest) => TakesOps(head) + Takes(body) + Takes(rest)
  }

  function TakesOps(ops: seq<Op>): nat {
    if ops == [] then 0 else TakesOps(ops[..|ops| - 1]) + if ops[|ops| - 1].Take? then 1 else 0
  }

  lemma {:induction false} NothingTaken(spare: Regs, ops: seq<Op>)
    requires TakesOps(ops) == 0
    ensures OpsRegs(spare, ops) == spare && TakenOps(spare, ops) == {}
  {
    if ops != [] {
      NothingTaken(spare, ops[..|ops| - 1]);
    }
  }

  // ---- Wide waves without addresses ----

  ghost predicate UsedAt(base: nat, r: nat, from: nat, to: nat) {
    exists k: nat :: from <= k < to && r == DepthReg(base, k)
  }

  /** Different depths from from up to to have different registers. */
  ghost predicate DepthsApart(base: nat, from: nat, to: nat) {
    forall j: nat, k: nat :: from <= j < k < to ==> DepthReg(base, j) != DepthReg(base, k)
  }

  /** Without addresses to take, the first save pair stays where it is. */
  lemma {:induction false} BaseStays(t: Target, code: Code, spare: Regs)
    requires t.wide && Takes(code) == 0
    ensures BaseOf(SpareAfter(t, code, spare)) == BaseOf(spare) && BaseOf(SpareNext(t, spare)) == BaseOf(spare)
    decreases code
  {
    NextBase(t, spare);
    hide BaseOf;
    match code
    case Done =>
    case Step(op, rest) => BaseStays(t, rest, spare);
    case IfThen(_, yes, rest) =>
      BaseStays(t, yes, SpareNext(t, spare));
      BaseStays(t, rest, SpareAfter(t, yes, SpareNext(t, spare)));
    case IfElse(_, yes, no, rest) =>
      var f2 := SpareAfter(t, yes, SpareNext(t, spare));
      BaseStays(t, yes, SpareNext(t, spare));
      BaseStays(t, no, f2);
      BaseStays(t, rest, SpareAfter(t, no, f2));
    case While(head, _, body, rest) =>
      NothingTaken(spare, head);
      BaseStays(t, body, SpareNext(t, spare));
      BaseStays(t, rest, SpareAfter(t, body, SpareNext(t, spare)));
  }

  lemma NextBase(t: Target, spare: Regs)
    requires t.wide
    ensures BaseOf(SpareNext(t, spare)) == BaseOf(spare)
  {
  }

  lemma {:induction false} WideSaves(t: Target, code: Code, depth: nat, spare: Regs, r: nat)
    requires t.wide && Takes(code) == 0
    ensures r in Saves(t, code, depth, spare) <==> UsedAt(BaseOf(spare), r, depth, depth + Depth(code))
    decreases code, 1
  {
    hide DepthReg, UsedAt, Distinct, BaseOf, SaveReg, SpareNext, SpareAfter, Max;
    var b := BaseOf(spare);
    UsedNone(b, r, depth);
    WideReg(t, depth, spare);
    match code
    case Done =>
    case Step(op, rest) => WideSaves(t, rest, depth, spare, r);
    case IfThen(c, yes, rest) =>
      hide Saves;
      UnfoldThen(t, c, yes, rest, depth, spare);
      BaseStays(t, yes, spare);
      BaseStays(t, yes, SpareNext(t, spare));
      WideSaves(t, yes, depth + 1, SpareNext(t, spare), r);
      WideSaves(t, rest, depth, SpareAfter(t, yes, SpareNext(t, spare)), r);
      UsedFirst(b, r, depth, depth + 1 + Depth(yes));
      UsedMax(b, r, depth, 1 + Depth(yes), Depth(rest));
    case IfElse(_, _, _, _) => WideSavesElse(t, code, depth, spare, r);
    case While(_, _, _, _) => WideSavesLoop(t, code, depth, spare, r);
  }

  lemma {:induction false} WideSavesElse(t: Target, code: Code, depth: nat, spare: Regs, r: nat)
    requires t.wide && Takes(code) == 0 && code.IfElse?
    ensures r in Saves(t, code, depth, spare) <==> UsedAt(BaseOf(spare), r, depth, depth + Depth(code))
    decreases code, 0
  {
    hide DepthReg, UsedAt, Distinct, BaseOf, SaveReg, SpareNext, SpareAfter, Max, Saves;
    var b, yes, no := BaseOf(spare), code.yes, code.no;
    WideReg(t, depth, spare);
    UnfoldElse(t, code.cond, yes, no, code.rest, depth, spare);
    var f2 := SpareAfter(t, yes, SpareNext(t, spare));
    BaseStays(t, yes, spare);
    BaseStays(t, yes, SpareNext(t, spare));
    BaseStays(t, no, f2);
    WideSaves(t, yes, depth + 1, SpareNext(t, spare), r);
    WideSaves(t, no, depth + 1, f2, r);
    WideSaves(t, code.rest, depth, SpareAfter(t, no, f2), r);
    UsedElse(b, r, depth, Depth(yes), Depth(no), Depth(code.rest));
  }

  lemma {:induction false} WideSavesLoop(t: Target, code: Code, depth: nat, spare: Regs, r: nat)
    requires t.wide && Takes(code) == 0 && code.While?
    ensures r in Saves(t, code, depth, spare) <==> UsedAt(BaseOf(spare), r, depth, depth + Depth(code))
    decreases code, 0
  {
    hide DepthReg, UsedAt, Distinct, BaseOf, SaveReg, SpareNext, SpareAfter, Max, Saves, LoopWrites, Fed, OpsFed;
    hide GoodOps, Spared, OpsRegs, TakenOps;
    var b, body := BaseOf(spare), code.body;
    WideReg(t, depth, spare);
    UnfoldWhile(t, code.head, code.cond, body, code.rest, depth, spare, {});
    NothingTaken(spare, code.head);
    BaseStays(t, body, spare);
    BaseStays(t, body, SpareNext(t, spare));
    WideSaves(t, body, depth + 1, SpareNext(t, spare), r);
    WideSaves(t, code.rest, depth, SpareAfter(t, body, SpareNext(t, spare)), r);
    UsedFirst(b, r, depth, depth + 1 + Depth(body));
    UsedMax(b, r, depth, 1 + Depth(body), Depth(code.rest));
  }

  lemma UsedElse(b: nat, r: nat, depth: nat, yes: nat, no: nat, rest: nat)
    ensures UsedAt(b, r, depth, depth + Max(Max(1 + yes, 1 + no), rest)) <==>
              r == DepthReg(b, depth) || UsedAt(b, r, depth + 1, depth + 1 + yes)
              || UsedAt(b, r, depth + 1, depth + 1 + no)
              || UsedAt(b, r, depth, depth + rest)
  {
    hide UsedAt, Max;
    UsedFirst(b, r, depth, depth + 1 + yes);
    UsedFirst(b, r, depth, depth + 1 + no);
    UsedMax(b, r, depth, 1 + yes, 1 + no);
    UsedMax(b, r, depth, Max(1 + yes, 1 + no), rest);
  }

  lemma WideReg(t: Target, depth: nat, spare: Regs)
    requires t.wide
    ensures SaveReg(t, depth, spare) == DepthReg(BaseOf(spare), depth)
  {
  }

  lemma UsedNone(base: nat, r: nat, depth: nat)
    ensures !UsedAt(base, r, depth, depth) && DepthsApart(base, depth, depth)
  {
  }

  lemma UsedFirst(base: nat, r: nat, from: nat, to: nat)
    requires from < to
    ensures UsedAt(base, r, from, to) <==> r == DepthReg(base, from) || UsedAt(base, r, from + 1, to)
  {
    hide DepthReg;
    assert r == DepthReg(base, from) ==> UsedAt(base, r, from, to);
  }

  lemma UsedMax(base: nat, r: nat, depth: nat, a: nat, b: nat)
    ensures UsedAt(base, r, depth, depth + Max(a, b)) <==>
              UsedAt(base, r, depth, depth + a) || UsedAt(base, r, depth, depth + b)
  {
    hide DepthReg;
  }

  lemma ApartSplit(base: nat, from: nat, to: nat)
    requires from < to
    ensures DepthsApart(base, from, to) <==>
              DepthsApart(base, from + 1, to) && !UsedAt(base, DepthReg(base, from), from + 1, to)
  {
    hide DepthReg;
    if !DepthsApart(base, from, to) {
      var j: nat, k: nat :| from <= j < k < to && DepthReg(base, j) == DepthReg(base, k);
      if j == from {
        assert UsedAt(base, DepthReg(base, from), from + 1, to);
      }
    }
  }

  lemma {:induction false} WideDistinct(t: Target, code: Code, depth: nat, spare: Regs)
    requires t.wide && Takes(code) == 0
    ensures Distinct(t, code, depth, spare) <==> DepthsApart(BaseOf(spare), depth, depth + Depth(code))
    decreases code
  {
    hide DepthReg, Saves, DepthsApart, UsedAt, BaseOf, SaveReg, SpareNext, SpareAfter, Max;
    var b := BaseOf(spare);
    UsedNone(b, 0, depth);
    WideReg(t, depth, spare);
    match code
    case Done =>
    case Step(_, rest) => WideDistinct(t, rest, depth, spare);
    case IfThen(_, yes, rest) =>
      var f1 := SpareNext(t, spare);
      BaseStays(t, yes, spare);
      BaseStays(t, yes, f1);
      WideArm(t, yes, depth, f1);
      WideDistinct(t, yes, depth + 1, f1);
      WideDistinct(t, rest, depth, SpareAfter(t, yes, f1));
      ApartMax(b, depth, 1 + Depth(yes), Depth(rest));
    case IfElse(_, yes, no, rest) =>
      var f1 := SpareNext(t, spare);
      var f2 := SpareAfter(t, yes, f1);
      BaseStays(t, yes, spare);
      BaseStays(t, yes, f1);
      BaseStays(t, no, f2);
      WideArm(t, yes, depth, f1);
      WideArm(t, no, depth, f2);
      WideDistinct(t, yes, depth + 1, f1);
      WideDistinct(t, no, depth + 1, f2);
      WideDistinct(t, rest, depth, SpareAfter(t, no, f2));
      ApartMax(b, depth, 1 + Depth(yes), 1 + Depth(no));
      ApartMax(b, depth, Max(1 + Depth(yes), 1 + Depth(no)), Depth(rest));
    case While(head, _, body, rest) =>
      NothingTaken(spare, head);
      var f1 := SpareNext(t, spare);
      BaseStays(t, body, spare);
      BaseStays(t, body, f1);
      WideArm(t, body, depth, f1);
      WideDistinct(t, body, depth + 1, f1);
      WideDistinct(t, rest, depth, SpareAfter(t, body, f1));
      ApartMax(b, depth, 1 + Depth(body), Depth(rest));
  }

  lemma WideArm(t: Target, arm: Code, depth: nat, spare: Regs)
    requires t.wide && Takes(arm) == 0
    ensures var b := BaseOf(spare);
            (DepthsApart(b, depth, depth + (1 + Depth(arm))) <==>
             DepthsApart(b, depth + 1, depth + 1 + Depth(arm))
             && DepthReg(b, depth) !in Saves(t, arm, depth + 1, spare))
  {
    hide DepthReg, Saves, DepthsApart, UsedAt, BaseOf;
    WideSaves(t, arm, depth + 1, spare, DepthReg(BaseOf(spare), depth));
    ApartSplit(BaseOf(spare), depth, depth + 1 + Depth(arm));
  }

  lemma ApartMax(base: nat, depth: nat, a: nat, b: nat)
    ensures DepthsApart(base, depth, depth + Max(a, b)) <==>
              DepthsApart(base, depth, depth + a) && DepthsApart(base, depth, depth + b)
  {
    hide DepthReg;
  }

  /** On wide waves the open regions of a nest that takes no addresses have registers of their own
      exactly when the deepest pair still fits below the register limit; a nest of depth one always
      does. */
  lemma DistinctIffFits(t: Target, code: Code, spare: Regs)
    requires t.wide && Takes(code) == 0 && spare.base == UNSET
    ensures Distinct(t, code, 0, spare) <==>
              Depth(code) <= 1 || Even(spare.next) + 2 * (Depth(code) - 1) + 1 < MAX_SGPRS
  {
    WideDistinct(t, code, 0, spare);
    var d, b := Depth(code), Even(spare.next);
    if d > 1 && b + 2 * (d - 1) + 1 >= MAX_SGPRS {
      assert DepthReg(b, d - 2) == DepthReg(b, d - 1);
    }
  }

  // ---- Wide waves with addresses ----

  /** Neither a save pair nor a taken pair reaches the register limit. */
  predicate Room(t: Target, code: Code, depth: nat, spare: Regs) {
    match code
    case Done => true
    case Step(op, rest) => (op.Take? ==> HasPair(spare)) && Room(t, rest, depth, AfterOp(spare, op))
    case IfThen(_, yes, rest) =>
      var f1 := SpareNext(t, spare);
      BaseOf(spare) + 2 * depth + 1 < MAX_SGPRS && Room(t, yes, depth + 1, f1)
      && Room(t, rest, depth, SpareAfter(t, yes, f1))
    case IfElse(_, yes, no, rest) =>
      var f1 := SpareNext(t, spare);
      var f2 := SpareAfter(t, yes, f1);
      && BaseOf(spare) + 2 * depth + 1 < MAX_SGPRS
      && Room(t, yes, depth + 1, f1) && Room(t, no, depth + 1, f2) && Room(t, rest, depth, SpareAfter(t, no, f2))
    case While(head, _, body, rest) =>
      var x := OpsRegs(spare, head);
      var f1 := SpareNext(t, x);
      && RoomOps(spare, head) && BaseOf(x) + 2 * depth + 1 < MAX_SGPRS
      && Room(t, body, depth + 1, f1) && Room(t, rest, depth, SpareAfter(t, body, f1))
  }

  predicate RoomOps(spare: Regs, ops: seq<Op>) {
    ops == []
    || (RoomOps(spare, ops[..|ops| - 1]) && (ops[|ops| - 1].Take? ==> HasPair(OpsRegs(spare, ops[..|ops| - 1]))))
  }

  /** Counting the pairs taken since the first region opened, of which there are k: no arm of a region
      of depth d takes pair number d. */
  predicate Apart(code: Code, depth: nat, k: nat, fixed: bool) {
    match code
    case Done => true
    case Step(op, rest) => Apart(rest, depth, if op.Take? && fixed then k + 1 else k, fixed)
    case IfThen(_, yes, rest) =>
      !(k <= depth < k + Takes(yes)) && Apart(yes, depth + 1, k, true) && Apart(rest, depth, k + Takes(yes), true)
    case IfElse(_, yes, no, rest) =>
      && !(k <= depth < k + Takes(yes) + Takes(no))
      && Apart(yes, depth + 1, k, true) && Apart(no, depth + 1, k + Takes(yes), true)
      && Apart(rest, depth, k + Takes(yes) + Takes(no), true)
    case While(head, _, body, rest) =>
      var k' := if fixed then k + TakesOps(head) else k;
      && !(k' <= depth < k' + Takes(body))
      && Apart(body, depth + 1, k', true) && Apart(rest, depth, k' + Takes(body), true)
  }

  /** The first save pair is fixed and k pairs have been taken since. */
  ghost predicate Counted(spare: Regs, k: nat) {
    spare.base != UNSET && spare.base % 2 == 0 && Even(spare.next) == spare.base + 2 * k
  }

  lemma CountedNext(t: Target, spare: Regs, k: nat)
    requires t.wide && Counted(spare, k)
    ensures SpareNext(t, spare) == spare
  {
  }

  lemma CountedReg(t: Target, depth: nat, spare: Regs, k: nat)
    requires t.wide && Counted(spare, k) && BaseOf(spare) + 2 * depth + 1 < MAX_SGPRS
    ensures SaveReg(t, depth, spare) == spare.base + 2 * depth
  {
  }

  lemma CountedOp(spare: Regs, op: Op, k: nat)
    requires Counted(spare, k) && (op.Take? ==> HasPair(spare))
    ensures Counted(AfterOp(spare, op), if op.Take? then k + 1 else k) && AfterOp(spare, op).base == spare.base
    ensures Taken(spare, op) == if op.Take? then {spare.base + 2 * k} else {}
  {
  }

  lemma {:induction false} CountedOps(spare: Regs, ops: seq<Op>, k: nat)
    requires Counted(spare, k) && RoomOps(spare, ops)
    ensures Counted(OpsRegs(spare, ops), k + TakesOps(ops)) && OpsRegs(spare, ops).base == spare.base
    ensures forall r: nat :: r in TakenOps(spare, ops) <==> OneOf(spare.base, k, k + TakesOps(ops), r)
  {
    hide Counted, HasPair, AfterOp, Taken;
    if ops != [] {
      var n := |ops| - 1;
      CountedOps(spare, ops[..n], k);
      CountedOp(OpsRegs(spare, ops[..n]), ops[n], k + TakesOps(ops[..n]));
    }
  }

  /** r is one of the pairs with numbers from up to to. */
  ghost predicate OneOf(base: nat, from: nat, to: nat, r: nat) {
    exists j: nat :: from <= j < to && r == base + 2 * j
  }

  lemma {:induction false} CountedAfter(t: Target, code: Code, depth: nat, spare: Regs, k: nat)
    requires t.wide && Counted(spare, k) && Room(t, code, depth, spare)
    ensures Counted(SpareAfter(t, code, spare), k + Takes(code)) && SpareAfter(t, code, spare).base == spare.base
    decreases code, 1
  {
    hide Counted, HasPair, AfterOp;
    match code
    case Done =>
    case Step(op, rest) =>
      CountedOp(spare, op, k);
      CountedAfter(t, rest, depth, AfterOp(spare, op), if op.Take? then k + 1 else k);
    case IfThen(_, yes, rest) =>
      CountedNext(t, spare, k);
      CountedAfter(t, yes, depth + 1, spare, k);
      CountedAfter(t, rest, depth, SpareAfter(t, yes, spare), k + Takes(yes));
    case IfElse(_, yes, no, rest) =>
      CountedNext(t, spare, k);
      var f2 := SpareAfter(t, yes, spare);
      CountedAfter(t, yes, depth + 1, spare, k);
      CountedAfter(t, no, depth + 1, f2, k + Takes(yes));
      CountedAfter(t, rest, depth, SpareAfter(t, no, f2), k + Takes(yes) + Takes(no));
    case While(_, _, _, _) => CountedLoop(t, code, depth, spare, k);
  }

  lemma {:induction false} CountedLoop(t: Target, code: Code, depth: nat, spare: Regs, k: nat)
    requires t.wide && Counted(spare, k) && Room(t, code, depth, spare) && code.While?
    ensures Counted(SpareAfter(t, code, spare), k + Takes(code)) && SpareAfter(t, code, spare).base == spare.base
    decreases code, 0
  {
    hide Counted, HasPair, AfterOp, OpsRegs, TakenOps, OneOf, RoomOps, SpareNext;
    var head, body := code.head, code.body;
    CountedOps(spare, head, k);
    var x, k' := OpsRegs(spare, head), k + TakesOps(head);
    CountedNext(t, x, k');
    CountedAfter(t, body, depth + 1, x, k');
    CountedAfter(t, code.rest, depth, SpareAfter(t, body, x), k' + Takes(body));
  }

  /** The pair of an outer depth e is written exactly by taking pair number e. */
  lemma {:induction false} OuterWritten(t: Target, code: Code, depth: nat, spare: Regs, k: nat, e: nat)
    requires t.wide && Counted(spare, k) && Room(t, code, depth, spare) && e < depth
    ensures spare.base + 2 * e in Saves(t, code, depth, spare) <==> k <= e < k + Takes(code)
    decreases code, 1
  {
    hide HasPair, AfterOp, Taken, SpareAfter, SpareNext, Counted, SaveReg;
    match code
    case Done =>
    case Step(op, rest) =>
      CountedOp(spare, op, k);
      OuterWritten(t, rest, depth, AfterOp(spare, op), if op.Take? then k + 1 else k, e);
    case IfThen(c, yes, rest) =>
      hide Saves, Distinct;
      UnfoldThen(t, c, yes, rest, depth, spare);
      CountedReg(t, depth, spare, k);
      CountedNext(t, spare, k);
      CountedAfter(t, yes, depth + 1, spare, k);
      OuterWritten(t, yes, depth + 1, spare, k, e);
      OuterWritten(t, rest, depth, SpareAfter(t, yes, spare), k + Takes(yes), e);
    case IfElse(_, _, _, _) => OuterWrittenElse(t, code, depth, spare, k, e);
    case While(_, _, _, _) => OuterWrittenLoop(t, code, depth, spare, k, e);
  }

  lemma {:induction false} OuterWrittenElse(t: Target, code: Code, depth: nat, spare: Regs, k: nat, e: nat)
    requires t.wide && Counted(spare, k) && Room(t, code, depth, spare) && e < depth && code.IfElse?
    ensures spare.base + 2 * e in Saves(t, code, depth, spare) <==> k <= e < k + Takes(code)
    decreases code, 0
  {
    hide HasPair, AfterOp, Taken, SpareAfter, SpareNext, Counted, SaveReg, Saves, Distinct;
    var yes, no := code.yes, code.no;
    UnfoldElse(t, code.cond, yes, no, code.rest, depth, spare);
    CountedReg(t, depth, spare, k);
    CountedNext(t, spare, k);
    var f2 := SpareAfter(t, yes, spare);
    CountedAfter(t, yes, depth + 1, spare, k);
    CountedAfter(t, no, depth + 1, f2, k + Takes(yes));
    OuterWritten(t, yes, depth + 1, spare, k, e);
    OuterWritten(t, no, depth + 1, f2, k + Takes(yes), e);
    OuterWritten(t, code.rest, depth, SpareAfter(t, no, f2), k + Takes(yes) + Takes(no), e);
  }

  lemma {:induction false} OuterWrittenLoop(t: Target, code: Code, depth: nat, spare: Regs, k: nat, e: nat)
    requires t.wide && Counted(spare, k) && Room(t, code, depth, spare) && e < depth && code.While?
    ensures spare.base + 2 * e in Saves(t, code, depth, spare) <==> k <= e < k + Takes(code)
    decreases code, 0
  {
    hide HasPair, AfterOp, Taken, SpareAfter, SpareNext, Counted, SaveReg, Saves, Distinct, LoopWrites, Fed, OpsFed;
    hide GoodOps, Spared, OpsRegs, TakenOps, OneOf, RoomOps;
    var head, body := code.head, code.body;
    UnfoldWhile(t, head, code.cond, body, code.rest, depth, spare, {});
    CountedOps(spare, head, k);
    var x, k' := OpsRegs(spare, head), k + TakesOps(head);
    OneOfPair(spare.base, k, k', e);
    CountedReg(t, depth, x, k');
    CountedNext(t, x, k');
    CountedAfter(t, body, depth + 1, x, k');
    OuterWritten(t, body, depth + 1, x, k', e);
    OuterWritten(t, code.rest, depth, SpareAfter(t, body, x), k' + Takes(body), e);
  }

  lemma OneOfPair(base: nat, from: nat, to: nat, e: nat)
    ensures OneOf(base, from, to, base + 2 * e) <==> from <= e < to
  {
  }

  lemma {:induction false} OpenApart(t: Target, code: Code, depth: nat, spare: Regs, k: nat)
    requires t.wide && Counted(spare, k) && Room(t, code, depth, spare)
    ensures Distinct(t, code, depth, spare) <==> Apart(code, depth, k, true)
    decreases code, 1
  {
    hide HasPair, AfterOp, Taken, Saves, SpareAfter, SpareNext, Counted, SaveReg;
    match code
    case Done =>
    case Step(op, rest) =>
      CountedOp(spare, op, k);
      OpenApart(t, rest, depth, AfterOp(spare, op), if op.Take? then k + 1 else k);
    case IfThen(_, yes, rest) =>
      CountedReg(t, depth, spare, k);
      CountedNext(t, spare, k);
      CountedAfter(t, yes, depth + 1, spare, k);
      OuterWritten(t, yes, depth + 1, spare, k, depth);
      OpenApart(t, yes, depth + 1, spare, k);
      OpenApart(t, rest, depth, SpareAfter(t, yes, spare), k + Takes(yes));
    case IfElse(_, _, _, _) => OpenApartElse(t, code, depth, spare, k);
    case While(head, _, body, rest) =>
      CountedOps(spare, head, k);
      var x, k' := OpsRegs(spare, head), k + TakesOps(head);
      CountedNext(t, x, k');
      LoopApart(t, code, depth, x, k');
  }

  lemma {:induction false} OpenApartElse(t: Target, code: Code, depth: nat, spare: Regs, k: nat)
    requires t.wide && Counted(spare, k) && Room(t, code, depth, spare) && code.IfElse?
    ensures Distinct(t, code, depth, spare) <==> Apart(code, depth, k, true)
    decreases code, 0
  {
    hide HasPair, AfterOp, Taken, Saves, SpareAfter, SpareNext, Counted, SaveReg;
    var yes, no := code.yes, code.no;
    CountedReg(t, depth, spare, k);
    CountedNext(t, spare, k);
    var f2 := SpareAfter(t, yes, spare);
    CountedAfter(t, yes, depth + 1, spare, k);
    CountedAfter(t, no, depth + 1, f2, k + Takes(yes));
    OuterWritten(t, yes, depth + 1, spare, k, depth);
    OuterWritten(t, no, depth + 1, f2, k + Takes(yes), depth);
    OpenApart(t, yes, depth + 1, spare, k);
    OpenApart(t, no, depth + 1, f2, k + Takes(yes));
    OpenApart(t, code.rest, depth, SpareAfter(t, no, f2), k + Takes(yes) + Takes(no));
  }

  /** A loop after its head. */
  lemma {:induction false} LoopApart(t: Target, code: Code, depth: nat, x: Regs, k: nat)
    requires code.While? && t.wide && Counted(x, k) && BaseOf(x) + 2 * depth + 1 < MAX_SGPRS
    requires Room(t, code.body, depth + 1, x) && Room(t, code.rest, depth, SpareAfter(t, code.body, x))
    ensures SpareNext(t, x) == x
    ensures SaveReg(t, depth, x) in Saves(t, code.body, depth + 1, x) <==> k <= depth < k + Takes(code.body)
    ensures Distinct(t, code.body, depth + 1, x) <==> Apart(code.body, depth + 1, k, true)
    ensures Distinct(t, code.rest, depth, SpareAfter(t, code.body, x)) <==>
              Apart(code.rest, depth, k + Takes(code.body), true)
    decreases code, 0
  {
    var body, rest := code.body, code.rest;
    CountedReg(t, depth, x, k);
    CountedNext(t, x, k);
    CountedAfter(t, body, depth + 1, x, k);
    OuterWritten(t, body, depth + 1, x, k, depth);
    OpenApart(t, body, depth + 1, x, k);
    OpenApart(t, rest, depth, SpareAfter(t, body, x), k + Takes(body));
  }

  /** Opening the first region fixes the first save pair; the pairs taken before do not count. */
  lemma FirstRegion(t: Target, code: Code, depth: nat, spare: Regs)
    requires t.wide && spare.base == UNSET && (code.IfThen? || code.IfElse?)
    ensures var f1 := SpareNext(t, spare);
            && Counted(f1, 0) && Room(t, code, depth, f1) == Room(t, code, depth, spare)
            && Distinct(t, code, depth, f1) == Distinct(t, code, depth, spare)
            && Apart(code, depth, 0, true) == Apart(code, depth, 0, false)
  {
    var f1 := SpareNext(t, spare);
    assert SpareNext(t, f1) == f1 && BaseOf(f1) == BaseOf(spare);
  }

  /** Within the register limit, the open regions of a nest have registers of their own on wide waves
      exactly when no pair number d is taken while a region of depth d is open. */
  lemma {:induction false} DistinctIffApart(t: Target, code: Code, depth: nat, spare: Regs)
    requires t.wide && spare.base == UNSET && Room(t, code, depth, spare)
    ensures Distinct(t, code, depth, spare) <==> Apart(code, depth, 0, false)
    decreases code
  {
    match code
    case Done =>
    case Step(op, rest) => DistinctIffApart(t, rest, depth, AfterOp(spare, op));
    case IfThen(_, _, _) =>
      FirstRegion(t, code, depth, spare);
      OpenApart(t, code, depth, SpareNext(t, spare), 0);
    case IfElse(_, _, _, _) =>
      FirstRegion(t, code, depth, spare);
      OpenApart(t, code, depth, SpareNext(t, spare), 0);
    case While(head, _, body, rest) =>
      OpsKeep(spare, head);
      var x := OpsRegs(spare, head);
      FirstLoop(t, depth, x);
      LoopApart(t, code, depth, SpareNext(t, x), 0);
  }

  lemma FirstLoop(t: Target, depth: nat, x: Regs)
    requires t.wide && x.base == UNSET
    ensures var f1 := SpareNext(t, x);
            Counted(f1, 0) && BaseOf(f1) == BaseOf(x) && SaveReg(t, depth, f1) == SaveReg(t, depth, x)
  {
  }

  // ---- Failing cases ----

  /** Nothing has been given out, and next is the next scalar register. */
  function Fresh(next: nat): Regs {
    Regs(0, next, UNSET, map[])
  }

  lemma LowerThen(t: Target, c: nat, yes: Code, first: nat, depth: nat, spare: Regs, fin: seq<Inst>)
    requires t.wide
    ensures var r := SaveReg(t, depth, spare);
            Lower(t, IfThen(c, yes, Done), [], first, depth, spare, fin) ==
            [[Cmp(c), SaveExec(r), Execz(first + 1 + Size(yes))]]
            + Lower(t, yes, [], first + 1, depth + 1, SpareNext(t, spare), [])
            + [[Or(r)] + fin]
  {
    hide SaveReg;
    var r := SaveReg(t, depth, spare);
    assert [] + [Cmp(c), SaveExec(r), Execz(first + 1 + Size(yes))]
           == [Cmp(c), SaveExec(r), Execz(first + 1 + Size(yes))];
  }

  lemma SharedProg(next: nat)
    requires Even(next) + 3 >= MAX_SGPRS
    ensures var r: nat := MAX_SGPRS - 2;
            Lower(Target(true), IfThen(0, IfThen(1, Done, Done), Done), [], 0, 0, Fresh(next), [EndPgm]) ==
            [[Cmp(0), SaveExec(r), Execz(4)], [Cmp(1), SaveExec(r), Execz(3)], [], [Or(r)], [Or(r), EndPgm]]
  {
    var r: nat := MAX_SGPRS - 2;
    var t, x := Target(true), Fresh(next);
    LowerThen(t, 0, IfThen(1, Done, Done), 0, 0, x, [EndPgm]);
    LowerThen(t, 1, Done, 1, 1, SpareNext(t, x), []);
    hide Lower;
    LowerDone(t, 2, 2, SpareNext(t, SpareNext(t, x)));
    assert [Or(r)] + [] == [Or(r)] && [Or(r)] + [EndPgm] == [Or(r), EndPgm];
  }

  lemma LowerDone(t: Target, first: nat, depth: nat, spare: Regs)
    ensures Lower(t, Done, [], first, depth, spare, []) == [[]]
  {
    var none: seq<Inst> := [];
    assert none + none == none;
  }

  /** A register pair shared by two open regions loses lanes: after the outer merge only the lanes of
      the outer then-arm are left. */
  lemma SharedPairLosesLanes(sem: Sem<int>, next: nat)
    requires Even(next) + 3 >= MAX_SGPRS && sem.holds(0, 0) && !sem.holds(0, 1) && sem.holds(1, 0)
    ensures var prog := Lower(Target(true), IfThen(0, IfThen(1, Done, Done), Done), [], 0, 0, Fresh(next), [EndPgm]);
            var w := Wave([0, 1], {0, 1}, {}, map[]);
            exists w' :: Reaches(sem, prog, 0, w, |prog|, w') && w'.exec == {0}
  {
    SharedProg(next);
    hide Lower, RunFor, RunInsts, Effect, Masked;
    var r: nat := MAX_SGPRS - 2;
    var prog := Lower(Target(true), IfThen(0, IfThen(1, Done, Done), Done), [], 0, 0, Fresh(next), [EndPgm]);
    var w0 := Wave([0, 1], {0, 1}, {}, map[]);
    RunHead(sem, 0, r, 4, w0);
    MaskedFacts(sem, 0, r, w0);
    var w1 := Masked(sem, 0, r, w0);
    assert w1.exec == {0};
    RunStep(sem, prog, 0, w0, 4);
    RunHead(sem, 1, r, 3, w1);
    MaskedFacts(sem, 1, r, w1);
    var w2 := Masked(sem, 1, r, w1);
    assert w2.exec == {0} && Reg(w2, r) == {0};
    RunStep(sem, prog, 1, w1, 3);
    RunNothing(sem, w2);
    RunStep(sem, prog, 2, w2, 2);
    OrKeeps(sem, r, w2);
    var w3 := Effect(sem, Or(r), w2);
    RunOne(sem, Or(r), w2);
    RunStep(sem, prog, 3, w2, 1);
    OrKeeps(sem, r, w3);
    var w4 := Effect(sem, Or(r), w3);
    RunOrEnd(sem, r, w3);
    RunStep(sem, prog, 4, w3, 0);
    RunZero(sem, prog, 5, w4);
  }

  lemma RunStep(sem: Sem<int>, prog: seq<seq<Inst>>, b: nat, w: Wave<int>, n: nat)
    requires b < |prog|
    ensures var (w', x) := RunInsts(sem, prog[b], w);
            RunFor(sem, prog, b, w, n + 1) == RunFor(sem, prog, Next(|prog|, b, x), w', n)
  {
  }

  lemma RunZero(sem: Sem<int>, prog: seq<seq<Inst>>, b: nat, w: Wave<int>)
    ensures RunFor(sem, prog, b, w, 0) == (b, w)
  {
  }

  lemma RunOrEnd(sem: Sem<int>, r: nat, w: Wave<int>)
    ensures RunInsts(sem, [Or(r), EndPgm], w) == (Effect(sem, Or(r), w), Stop)
  {
    RunCons(sem, Or(r), [EndPgm], w);
    RunCons(sem, EndPgm, [], Effect(sem, Or(r), w));
    assert [Or(r)] + ([EndPgm] + []) == [Or(r), EndPgm];
  }

  lemma OrKeeps(sem: Sem<int>, r: nat, w: Wave<int>)
    requires Reg(w, r) == w.exec
    ensures var w' := Effect(sem, Or(r), w); w'.exec == w.exec && Reg(w', r) == Reg(w, r)
    ensures Effect(sem, EndPgm, Effect(sem, Or(r), w)) == Effect(sem, Or(r), w)
  {
  }

  lemma TakenProg(next: nat, v: nat)
    requires Even(next) + 1 < MAX_SGPRS
    ensures var r := Even(next);
            Lower(Target(true), IfThen(0, Step(Take(v), Done), Done), [], 0, 0, Fresh(next), [EndPgm]) ==
            [[Cmp(0), SaveExec(r), Execz(2)], [TakePair(r, v)], [Or(r), EndPgm]]
  {
    var t, x, r := Target(true), Fresh(next), Even(next);
    LowerThen(t, 0, Step(Take(v), Done), 0, 0, x, [EndPgm]);
    var x1 := SpareNext(t, x);
    assert OpInsts(x1, Take(v)) == [TakePair(r, v)];
    assert [] + [TakePair(r, v)] + [] == [TakePair(r, v)];
    assert [Or(r)] + [EndPgm] == [Or(r), EndPgm];
  }

  /** The first pair taken inside the first region is the pair that saves EXEC there: after the merge
      the lanes that were off, and are not bits of the address, stay off. */
  lemma TakenPairLosesLanes(sem: Sem<int>, next: nat, v: nat)
    requires Even(next) + 1 < MAX_SGPRS && sem.holds(0, 0) && !sem.holds(0, 1) && 1 !in sem.addr(v)
    ensures var prog := Lower(Target(true), IfThen(0, Step(Take(v), Done), Done), [], 0, 0, Fresh(next), [EndPgm]);
            var w := Wave([0, 1], {0, 1}, {}, map[]);
            exists w' :: Reaches(sem, prog, 0, w, |prog|, w') && 1 !in w'.exec
  {
    TakenProg(next, v);
    hide Lower, RunFor, RunInsts, Masked;
    var r := Even(next);
    var prog := Lower(Target(true), IfThen(0, Step(Take(v), Done), Done), [], 0, 0, Fresh(next), [EndPgm]);
    var w0 := Wave([0, 1], {0, 1}, {}, map[]);
    RunHead(sem, 0, r, 2, w0);
    MaskedFacts(sem, 0, r, w0);
    var w1 := Masked(sem, 0, r, w0);
    assert w1.exec == {0};
    RunStep(sem, prog, 0, w0, 2);
    var w2 := Effect(sem, TakePair(r, v), w1);
    RunOne(sem, TakePair(r, v), w1);
    RunStep(sem, prog, 1, w1, 1);
    var w3 := Effect(sem, Or(r), w2);
    RunOrEnd(sem, r, w2);
    RunStep(sem, prog, 2, w2, 0);
    RunZero(sem, prog, 3, w3);
  }

  /** Two regions one after the other, and an address taken in between and used after. */
  function Between(v: nat): Code {
    IfThen(0, Done, Step(Take(v), IfThen(1, Done, Step(With(3, v), Done))))
  }

  lemma BetweenProg(next: nat, v: nat)
    requires Even(next) + 1 < MAX_SGPRS
    ensures var r := Even(next);
            Lower(Target(true), Between(v), [], 0, 0, Fresh(next), [EndPgm]) ==
            [[Cmp(0), SaveExec(r), Execz(2)], [], [Or(r), TakePair(r, v), Cmp(1), SaveExec(r), Execz(4)], [],
             [Or(r), LaneUse(3, r), EndPgm]]
  {
    var t, x, r := Target(true), Fresh(next), Even(next);
    var x1 := SpareNext(t, x);
    var x2 := AfterOp(x1, Take(v));
    assert x1.base == r && x2.base == r && SaveReg(t, 0, x2) == r && PairOf(x2, v) == r && SpareNext(t, x2) == x2;
    LowerDone(t, 1, 1, x1);
    LowerDone(t, 3, 1, x2);
    var rest := IfThen(1, Done, Step(With(3, v), Done));
    LowerThenParts(t, 0, Done, Step(Take(v), rest), [], 0, 0, x, [EndPgm]);
    assert OpInsts(x1, Take(v)) == [TakePair(r, v)];
    LowerThenParts(t, 1, Done, Step(With(3, v), Done), [Or(r)] + [TakePair(r, v)], 2, 0, x2, [EndPgm]);
    LastBlock(t, r, v, x2);
    hide SaveReg, OpInsts, AfterOp, SpareNext;
    assert [] + [Cmp(0), SaveExec(r), Execz(2)] == [Cmp(0), SaveExec(r), Execz(2)];
    assert [Or(r)] + [TakePair(r, v)] + [Cmp(1), SaveExec(r), Execz(4)]
           == [Or(r), TakePair(r, v), Cmp(1), SaveExec(r), Execz(4)];
  }

  lemma LastBlock(t: Target, r: nat, v: nat, x: Regs)
    requires PairOf(x, v) == r
    ensures Lower(t, Step(With(3, v), Done), [Or(r)], 4, 0, x, [EndPgm]) == [[Or(r), LaneUse(3, r), EndPgm]]
  {
    assert [Or(r)] + [LaneUse(3, r)] + [EndPgm] == [Or(r), LaneUse(3, r), EndPgm];
  }

  /** The block between the regions: the lane is on, and the pair ends up with the mask. */
  lemma MiddleBlock(sem: Sem<int>, r: nat, v: nat, w: Wave<int>)
    requires w.lanes == [0] && w.exec == {0} && Reg(w, r) == {0} && sem.holds(1, 0)
    ensures var out := RunInsts(sem, [Or(r), TakePair(r, v), Cmp(1), SaveExec(r), Execz(4)], w);
            out.1 == Fall && out.0.lanes == [0] && out.0.exec == {0} && Reg(out.0, r) == {0}
  {
    hide RunInsts, Masked;
    var w2 := Effect(sem, Or(r), w);
    var w3 := Effect(sem, TakePair(r, v), w2);
    assert w3.exec == {0} && w3.lanes == [0];
    RunHead(sem, 1, r, 4, w3);
    MaskedFacts(sem, 1, r, w3);
    assert Masked(sem, 1, r, w3).exec == {0};
    RunCons(sem, Or(r), [TakePair(r, v), Cmp(1), SaveExec(r), Execz(4)], w);
    RunCons(sem, TakePair(r, v), [Cmp(1), SaveExec(r), Execz(4)], w2);
    assert [TakePair(r, v)] + [Cmp(1), SaveExec(r), Execz(4)] == [TakePair(r, v), Cmp(1), SaveExec(r), Execz(4)];
    assert [Or(r)] + [TakePair(r, v), Cmp(1), SaveExec(r), Execz(4)]
           == [Or(r), TakePair(r, v), Cmp(1), SaveExec(r), Execz(4)];
  }

  lemma EndBlock(sem: Sem<int>, r: nat, w: Wave<int>)
    requires w.lanes == [0] && w.exec == {0} && Reg(w, r) == {0}
    ensures var out := RunInsts(sem, [Or(r), LaneUse(3, r), EndPgm], w);
            out.1 == Stop && out.0.lanes == [sem.use(3, {0}, 0)]
  {
    hide RunInsts;
    var w5 := Effect(sem, Or(r), w);
    var w6 := Effect(sem, LaneUse(3, r), w5);
    assert w5.exec == {0};
    RunCons(sem, Or(r), [LaneUse(3, r), EndPgm], w);
    RunCons(sem, LaneUse(3, r), [EndPgm], w5);
    RunCons(sem, EndPgm, [], w6);
    assert [EndPgm] + [] == [EndPgm] && [LaneUse(3, r)] + [EndPgm] == [LaneUse(3, r), EndPgm];
    assert [Or(r)] + [LaneUse(3, r), EndPgm] == [Or(r), LaneUse(3, r), EndPgm];
  }

  /** The second region saves EXEC over the address, which is then used: the lane finds a mask. */
  lemma SavedOverAddress(sem: Sem<int>, next: nat, v: nat)
    requires Even(next) + 1 < MAX_SGPRS && sem.holds(0, 0) && sem.holds(1, 0)
    ensures var prog := Lower(Target(true), Between(v), [], 0, 0, Fresh(next), [EndPgm]);
            var w := Wave([0], {0}, {}, map[]);
            exists w' :: Reaches(sem, prog, 0, w, |prog|, w') && w'.lanes == [sem.use(3, {0}, 0)]
  {
    BetweenProg(next, v);
    hide Lower, RunFor, RunInsts, Masked, Between, Effect;
    var r := Even(next);
    var prog := Lower(Target(true), Between(v), [], 0, 0, Fresh(next), [EndPgm]);
    var w0 := Wave([0], {0}, {}, map[]);
    RunHead(sem, 0, r, 2, w0);
    MaskedFacts(sem, 0, r, w0);
    var w1 := Masked(sem, 0, r, w0);
    assert w1.exec == {0};
    RunStep(sem, prog, 0, w0, 4);
    RunNothing(sem, w1);
    RunStep(sem, prog, 1, w1, 3);
    MiddleBlock(sem, r, v, w1);
    RunStep(sem, prog, 2, w1, 2);
    var w4 := RunInsts(sem, prog[2], w1).0;
    RunNothing(sem, w4);
    RunStep(sem, prog, 3, w4, 1);
    EndBlock(sem, r, w4);
    RunStep(sem, prog, 4, w4, 0);
    RunZero(sem, prog, 5, RunInsts(sem, prog[4], w4).0);
  }
}
