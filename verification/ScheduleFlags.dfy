/** Recorded accesses and the schedule: what the ISA makes one instruction owe to another stays in
    order, and a flag that is written unnoticed does not. */
module ScheduleFlags {
  import opened Permutations
  import opened ScheduleDag
  import opened ScheduleAccess
  import opened ScheduleMeaning
  import opened ScheduleOrder
  import opened Schedule
  import ScheduleObserved

  /** The block as build_dag sees the instructions. */
  ghost predicate Recorded(xs: seq<MInst>, b: Block) {
    |xs| == |b| && forall i :: 0 <= i < |b| ==> b[i].kind == KindOf(xs[i]) && b[i].acc == Accesses(xs[i])
  }

  /** A register written by one instruction and touched by a later one keeps them in order. */
  lemma DependenceKept(xs: seq<MInst>, b: Block, order: seq<nat>, i: nat, j: nat, r: Reg)
    requires Recorded(xs, b) && Shape(b) && Good(b, order) && i < j < |b| && !Misses(xs[i]) && !Misses(xs[j])
    requires IsaWrites(xs[i], r) && (IsaReads(xs[j], r) || IsaWrites(xs[j], r))
    ensures Before(order, i, j)
  {
    hide Good, Shape, Accesses, IsaReads, IsaWrites;
    CompleteIff(xs[i]);
    CompleteIff(xs[j]);
    if b[i].kind == Plain {
      ScheduleObserved.WriterFirst(b, order, KeyOf(r), i, j);
    } else {
      ScheduleObserved.FixedFirst(b, order, i, j);
    }
  }

  /** Whatever changes the mask stays where it is among all other instructions. */
  lemma MaskKept(xs: seq<MInst>, b: Block, order: seq<nat>, i: nat, j: nat)
    requires Recorded(xs, b) && Shape(b) && Good(b, order) && i < j < |b|
    requires IsaWrites(xs[i], Flag(SPEC_EXEC)) || IsaWrites(xs[j], Flag(SPEC_EXEC))
    ensures Before(order, i, j)
  {
    hide Good, Shape, Accesses;
    ScheduleObserved.FixedFirst(b, order, i, j);
  }

  /** The producer of a register is required before its next reader: a compare, say, before the
      select or the branch on its flag. */
  lemma ProducerRequired(xs: seq<MInst>, b: Block, i: nat, j: nat, r: Reg)
    requires Recorded(xs, b) && i < j < |b| && !Misses(xs[i]) && !Misses(xs[j]) && b[j].kind != Barrier
    requires IsaWrites(xs[i], r) && IsaReads(xs[j], r)
    requires forall m :: i <= m < j ==> b[m].kind != Barrier && (m > i ==> !Writes(b[m], KeyOf(r)))
    ensures Required(b, i, j)
  {
    hide Accesses, IsaReads, IsaWrites;
    CompleteIff(xs[i]);
    CompleteIff(xs[j]);
    assert NeedsFlow(b, KeyOf(r), i, j);
  }

  // ---- A flag lost between a compare and its branch ----

  /** The instruction at q of the order reads r as the one at p left it. */
  ghost predicate ReadsFrom(xs: seq<MInst>, order: seq<nat>, p: nat, q: nat, r: Reg) {
    && p < q < |order| && (forall m :: 0 <= m < |order| ==> order[m] < |xs|)
    && IsaWrites(xs[order[p]], r) && IsaReads(xs[order[q]], r)
    && forall m :: p < m < q ==> !IsaWrites(xs[order[m]], r)
  }

  /** `s_add_i32 v2, v1, v1`, then `s_cmp v3, v4` and the branch on it. */
  function Loop(): seq<MInst> {
    [MInst(AddSigned, [Vreg(2)], [Vreg(1), Vreg(1)]), MInst(ScalarCompare, [], [Vreg(3), Vreg(4)]),
     MInst(SccBranch, [], [Untracked])]
  }

  function LoopBlock(): Block {
    [Inst(Plain, Accesses(Loop()[0]), false, false, 1), Inst(Plain, Accesses(Loop()[1]), false, false, 1),
     Inst(Term, Accesses(Loop()[2]), false, false, 1)]
  }

  lemma LoopAccess()
    ensures var b := LoopBlock();
            && b[0].acc == [Use(1), Use(1), Def(2)]
            && b[1].acc == [Use(3), Use(4), Def(65534)]
            && b[2].acc == [Use(65534)]
  {
    hide UsesOf, DefsOf;
    var xs := Loop();
    TwoUses(Vreg(1), Vreg(1));
    TwoUses(Vreg(3), Vreg(4));
    OneUse(Untracked);
    OneDef(xs[0].defs);
    OneDef([]);
  }

  lemma OneUse(o: Operand)
    ensures UsesOf([o]) == UseOf(o)
  {
    assert [o][..0] == [];
  }

  lemma TwoUses(o: Operand, o': Operand)
    ensures UsesOf([o, o']) == UseOf(o) + UseOf(o')
  {
    OneUse(o);
    assert [o, o'][..1] == [o];
  }

  lemma LoopEdges(x: nat, y: nat)
    ensures Required(LoopBlock(), x, y) <==> x == 1 && y == 2
  {
    hide Accesses;
    var b := LoopBlock();
    LoopAccess();
    assert forall i: nat, j: nat :: SameEpoch(b, i, j);
    assert forall k: nat :: (Writes(b[0], k) <==> k == 2) && (Writes(b[1], k) <==> k == 65534) && !Writes(b[2], k);
    assert forall k: nat :: (Reads(b[1], k) <==> k == 3 || k == 4) && (Reads(b[2], k) <==> k == 65534);
    assert forall i :: 0 <= i < 3 ==> !Revisits(b[i]);
    hide Reads, Writes, Revisits, ReadsFirst, SameEpoch;
    assert forall k: nat :: NeedsFlow(b, k, x, y) ==> x == 1 && y == 2;
    assert x == 1 && y == 2 ==> NeedsFlow(b, 65534, x, y);
    assert forall k: nat :: !NeedsAnti(b, k, x, y);
    assert !NeedsMemory(b, x, y);
  }

  lemma LoopShape()
    ensures var b := LoopBlock();
            Shape(b) && NoRevisits(b) && Epoch(b, 3) == 0 && !TooMany(b) && Recorded(Loop(), b)
  {
    hide Accesses;
    var b := LoopBlock();
    LoopAccess();
    assert forall i :: 0 <= i < 3 ==> !Revisits(b[i]);
    ShortBlock(b);
    hide Required, Revisits, TooMany;
  }

  lemma LoopPriorities(prio: seq<nat>)
    requires |prio| == 3 && forall i :: 0 <= i < 3 ==> LongestFrom(LoopBlock(), prio, i)
    ensures prio == [1, 2, 1]
  {
    hide Accesses;
    var b := LoopBlock();
    forall x: nat, y: nat
      ensures Required(b, x, y) <==> x == 1 && y == 2
    {
      LoopEdges(x, y);
    }
    hide Required;
    assert LongestFrom(b, prio, 2) && LongestFrom(b, prio, 1) && LongestFrom(b, prio, 0);
  }

  lemma LoopOrder(order: seq<nat>)
    requires Permutation(3, order) && LongestFirst(LoopBlock(), order) && Good(LoopBlock(), order)
    ensures order == [1, 0, 2]
  {
    hide Accesses;
    var b := LoopBlock();
    var g, prio :| Exact(b, g) && |prio| == |b| && (forall i :: 0 <= i < |b| ==> LongestFrom(b, prio, i))
        && Greedy(b, g, prio, order);
    LoopPriorities(prio);
    LoopShape();
    ScheduleObserved.FixedFirst(b, order, 0, 2);
    ScheduleObserved.FixedFirst(b, order, 1, 2);
    hide LongestFrom, Good;
    forall x: nat, y: nat
      ensures Required(b, x, y) <==> x == 1 && y == 2
    {
      LoopEdges(x, y);
    }
    hide Required, Edge;
    forall i: nat | i < 3
      ensures Epoch(b, i) == 0
    {
      EpochMonotone(b, i, 3);
    }
    hide Epoch;
    assert Waits(b, g, order[..0], 1);
    assert order[0] == 1;
  }

  /** s_add_i32 sets SCC by the ISA, which build_dag does not record.  The scheduler moves it between
      the compare and the branch, which then goes by the addition. */
  method FlagLost() returns (r: Outcome)
    ensures r == Scheduled([1, 0, 2])
    ensures ReadsFrom(Loop(), [0, 1, 2], 1, 2, Flag(SPEC_SCC))
    ensures ReadsFrom(Loop(), r.order, 1, 2, Flag(SPEC_SCC)) && r.order[1] != [0, 1, 2][1]
  {
    hide LongestFirst, Good, Permutation, NoRevisits, TooMany, Epoch, Accesses, Shape;
    hide SameResult, SameRun, ScheduleObserved.ObservedLed, ReadersLed;
    LoopShape();
    r := ScheduleBlock(LoopBlock());
    LoopOrder(r.order);
  }
}
