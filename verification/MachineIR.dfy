/** Machine code of one function before and after register allocation, and what it does when
    run.  Instructions are generic in the names of their registers: virtual registers before
    allocation, physical locations after. */
module MachineIR {

  /** What an instruction does to control: nothing, or one of the block terminators.  Targets
      are block numbers within the function. */
  datatype Control = Next | Branch(target: int) | CondBranch(target: int) | Stop

  datatype Inst<R> = Inst(op: nat, defs: seq<R>, uses: seq<R>, isCopy: bool, control: Control)

  type Block<R> = seq<Inst<R>>

  predicate IsTerminator<R>(i: Inst<R>) {
    !i.control.Next?
  }

  // ---- ra_build_cfg ----

  /** The successor list after one more terminator of the backward scan. */
  function AddTarget(succs: seq<nat>, control: Control, nb: nat): (s: seq<nat>)
    ensures |succs| <= 2 ==> |s| <= 2
  {
    match control
    case Branch(t) => if 0 <= t < nb && |succs| < 2 then succs + [t] else succs
    case CondBranch(t) => if 0 <= t < nb && |succs| < 2 then succs + [t] else succs
    case _ => succs
  }

  predicate Unconditional(control: Control) {
    control.Branch? || control.Stop?
  }

  /** Scan block[..n] backwards while it ends in terminators. */
  function ScanBack<R>(block: Block<R>, n: nat, succs: seq<nat>, uncond: bool, nb: nat): (seq<nat>, bool)
    requires n <= |block|
  {
    if n == 0 || !IsTerminator(block[n - 1]) then (succs, uncond)
    else
      var c := block[n - 1].control;
      ScanBack(block, n - 1, AddTarget(succs, c, nb), uncond || Unconditional(c), nb)
  }

  function Successors<R>(block: Block<R>, bi: nat, nb: nat): seq<nat> {
    var (succs, uncond) := ScanBack(block, |block|, [], false, nb);
    if !uncond && bi + 1 < nb && |succs| < 2 then succs + [bi + 1] else succs
  }

  /** The backward scan over the terminators of one block. */
  method ScanTerminators<R>(block: Block<R>, nb: nat) returns (mine: seq<nat>, uncond: bool)
    ensures (mine, uncond) == ScanBack(block, |block|, [], false, nb)
  {
    mine, uncond := [], false;
    var ii := |block|;
    while ii > 0 && IsTerminator(block[ii - 1])
      invariant 0 <= ii <= |block|
      invariant ScanBack(block, ii, mine, uncond, nb) == ScanBack(block, |block|, [], false, nb)
    {
      var c := block[ii - 1].control;
      if c.Stop? {
        uncond := true;
      } else if c.Branch? {
        uncond := true;
        if 0 <= c.target < nb && |mine| < 2 {
          mine := mine + [c.target];
        }
      } else if 0 <= c.target < nb && |mine| < 2 {
        mine := mine + [c.target];
      }
      ii := ii - 1;
    }
  }

  /** Compute the successor lists of all blocks. */
  method BuildCfg<R>(blocks: seq<Block<R>>) returns (succs: seq<seq<nat>>)
    ensures |succs| == |blocks|
    ensures forall b :: 0 <= b < |blocks| ==> succs[b] == Successors(blocks[b], b, |blocks|)
  {
    var nb := |blocks|;
    succs := [];
    for bi := 0 to nb
      invariant |succs| == bi
      invariant forall b :: 0 <= b < bi ==> succs[b] == Successors(blocks[b], b, nb)
    {
      var mine, uncond := ScanTerminators(blocks[bi], nb);
      if !uncond && bi + 1 < nb && |mine| < 2 {
        mine := mine + [bi + 1];
      }
      succs := succs + [mine];
    }
  }

  // ---- Shape of a block the scan understands ----

  /** The terminators of a block form its suffix and define no register. */
  ghost predicate TerminatorSuffix<R>(block: Block<R>) {
    && (forall i, j :: 0 <= i < j < |block| && IsTerminator(block[i]) ==> IsTerminator(block[j]))
    && (forall i :: 0 <= i < |block| && IsTerminator(block[i]) ==> block[i].defs == [])
  }

  /** How many of the trailing terminators of block[..n] name a block of the function. */
  function TargetCount<R>(block: Block<R>, n: nat, nb: nat): nat
    requires n <= |block|
  {
    if n == 0 || !IsTerminator(block[n - 1]) then 0
    else
      var c := block[n - 1].control;
      TargetCount(block, n - 1, nb) + if (c.Branch? || c.CondBranch?) && 0 <= c.target < nb then 1 else 0
  }

  predicate FallsThrough<R>(block: Block<R>) {
    !ScanBack(block, |block|, [], false, 0).1
  }

  /** At most two successors: the list has room for every one of them. */
  predicate TwoSuccessors<R>(block: Block<R>, nb: nat) {
    TargetCount(block, |block|, nb) + (if FallsThrough(block) then 1 else 0) <= 2
  }

  lemma {:induction false} ScanFlag<R>(block: Block<R>, n: nat, succs: seq<nat>, uncond: bool, nb: nat,
                                       succs': seq<nat>, nb': nat)
    requires n <= |block|
    ensures ScanBack(block, n, succs, uncond, nb).1 == ScanBack(block, n, succs', uncond, nb').1
    decreases n
  {
    if n > 0 && IsTerminator(block[n - 1]) {
      var c := block[n - 1].control;
      ScanFlag(block, n - 1, AddTarget(succs, c, nb), uncond || Unconditional(c), nb, AddTarget(succs', c, nb'), nb');
    }
  }

  /** With room for all, the scan collects every target and keeps what it had. */
  lemma {:induction false} ScanCollects<R>(block: Block<R>, n: nat, succs: seq<nat>, uncond: bool, nb: nat)
    requires n <= |block| && |succs| + TargetCount(block, n, nb) <= 2
    ensures var s := ScanBack(block, n, succs, uncond, nb).0;
            && |s| == |succs| + TargetCount(block, n, nb)
            && (forall x :: x in succs ==> x in s)
    decreases n
  {
    if n > 0 && IsTerminator(block[n - 1]) {
      ScanCollects(block, n - 1, AddTarget(succs, block[n - 1].control, nb),
                   uncond || Unconditional(block[n - 1].control), nb);
    }
  }

  lemma {:induction false} ScanFinds<R>(block: Block<R>, n: nat, succs: seq<nat>, uncond: bool, nb: nat, i: nat)
    requires n <= |block| && |succs| + TargetCount(block, n, nb) <= 2
    requires i < n && forall j :: i <= j < n ==> IsTerminator(block[j])
    requires (block[i].control.Branch? || block[i].control.CondBranch?) && 0 <= block[i].control.target < nb
    ensures block[i].control.target in ScanBack(block, n, succs, uncond, nb).0
    decreases n
  {
    var c := block[n - 1].control;
    var succs' := AddTarget(succs, c, nb);
    if i == n - 1 {
      ScanCollects(block, n - 1, succs', uncond || Unconditional(c), nb);
      assert c.target in succs';
    } else {
      ScanFinds(block, n - 1, succs', uncond || Unconditional(c), nb, i);
    }
  }

  lemma {:induction false} ScanSeesUnconditional<R>(block: Block<R>, n: nat, succs: seq<nat>, uncond: bool, nb: nat)
    requires n <= |block|
    ensures ScanBack(block, n, succs, uncond, nb).1 ==>
              uncond || exists i :: 0 <= i < n && Unconditional(block[i].control)
    decreases n
  {
    if n > 0 && IsTerminator(block[n - 1]) {
      var c := block[n - 1].control;
      ScanSeesUnconditional(block, n - 1, AddTarget(succs, c, nb), uncond || Unconditional(c), nb);
    }
  }

  // ---- Running a function ----

  /** The meaning of the opcodes, as parameters: what an instruction computes from its source
      values and the rest of the machine (memory, condition codes, masks), and whether a
      conditional branch is taken. */
  datatype Machine<!V, !W> = Machine(eval: (nat, seq<V>, W) -> (V, W), taken: (nat, seq<V>, W) -> bool)

  /** A point in a run: about to execute instruction `pc` of block `bi`. */
  datatype Config<!R, !V, !W> = At(bi: nat, pc: nat, regs: R -> V, world: W) | Halted(world: W)

  ghost function Values<R, V>(regs: R -> V, uses: seq<R>): seq<V> {
    seq(|uses|, i requires 0 <= i < |uses| => regs(uses[i]))
  }

  ghost function Write<R, V>(regs: R -> V, d: R, v: V): R -> V {
    r => if r == d then v else regs(r)
  }

  /** Registers and world after a non-branching instruction with at most one result.  A copy
      moves its source and touches nothing else. */
  ghost function Execute<R, V, W>(m: Machine<V, W>, i: Inst<R>, regs: R -> V, w: W): (R -> V, W)
    requires |i.defs| <= 1
  {
    var vals := Values(regs, i.uses);
    if i.isCopy && |vals| > 0 then (if i.defs == [] then regs else Write(regs, i.defs[0], vals[0]), w)
    else
      var (v, w') := m.eval(i.op, vals, w);
      (if i.defs == [] then regs else Write(regs, i.defs[0], v), w')
  }

  ghost function Goto<R, V, W>(nb: nat, t: int, regs: R -> V, w: W): Config<R, V, W> {
    if 0 <= t < nb then At(t, 0, regs, w) else Halted(w)
  }

  /** Every instruction has at most one result. */
  ghost predicate OneDef<R>(blocks: seq<Block<R>>) {
    forall b, i :: 0 <= b < |blocks| && 0 <= i < |blocks[b]| ==> |blocks[b][i].defs| <= 1
  }

  /** One step.  Past the last instruction control falls into the next block; past the last
      block, or at a target outside the function, the run is over. */
  ghost function Step<R, V, W>(m: Machine<V, W>, blocks: seq<Block<R>>, c: Config<R, V, W>): Config<R, V, W>
    requires OneDef(blocks)
  {
    if c.Halted? then c
    else if c.bi >= |blocks| || c.pc > |blocks[c.bi]| then Halted(c.world)
    else if c.pc == |blocks[c.bi]| then Goto(|blocks|, c.bi + 1, c.regs, c.world)
    else
      var i := blocks[c.bi][c.pc];
      match i.control
      case Next =>
        var (regs, w) := Execute(m, i, c.regs, c.world);
        At(c.bi, c.pc + 1, regs, w)
      case Branch(t) => Goto(|blocks|, t, c.regs, c.world)
      case CondBranch(t) =>
        if m.taken(i.op, Values(c.regs, i.uses), c.world) then Goto(|blocks|, t, c.regs, c.world)
        else At(c.bi, c.pc + 1, c.regs, c.world)
      case Stop => Halted(c.world)
  }

  /** The configuration after n steps. */
  ghost function Run<R, V, W>(m: Machine<V, W>, blocks: seq<Block<R>>, c: Config<R, V, W>, n: nat): Config<R, V, W>
    requires OneDef(blocks)
    decreases n
  {
    if n == 0 then c else Run(m, blocks, Step(m, blocks, c), n - 1)
  }

  /** Control has not passed an unconditional terminator of the current block. */
  ghost predicate OnPath<R>(blocks: seq<Block<R>>, bi: nat, pc: nat) {
    && bi < |blocks| && pc <= |blocks[bi]|
    && (forall i :: 0 <= i < pc ==> !Unconditional(blocks[bi][i].control))
  }

  /** A branch of a block with at most two successors leads to a recorded one. */
  lemma BranchIsSuccessor<R>(blocks: seq<Block<R>>, bi: nat, pc: nat)
    requires bi < |blocks| && pc < |blocks[bi]|
    requires TerminatorSuffix(blocks[bi]) && TwoSuccessors(blocks[bi], |blocks|)
    requires var c := blocks[bi][pc].control; (c.Branch? || c.CondBranch?) && 0 <= c.target < |blocks|
    ensures blocks[bi][pc].control.target in Successors(blocks[bi], bi, |blocks|)
  {
    ScanFinds(blocks[bi], |blocks[bi]|, [], false, |blocks|, pc);
  }

  /** And so does falling off its end. */
  lemma FallIsSuccessor<R>(blocks: seq<Block<R>>, bi: nat)
    requires bi + 1 < |blocks| && OnPath(blocks, bi, |blocks[bi]|)
    requires TwoSuccessors(blocks[bi], |blocks|)
    ensures bi + 1 in Successors(blocks[bi], bi, |blocks|)
  {
    var block, nb := blocks[bi], |blocks|;
    ScanSeesUnconditional(block, |block|, [], false, nb);
    ScanFlag(block, |block|, [], false, nb, [], 0);
    ScanCollects(block, |block|, [], false, nb);
  }

  /** One step leads from block bi to the start of block t: from one of its instructions, or from its
      end if control can get there. */
  ghost predicate Goes<R(!new)>(blocks: seq<Block<R>>, bi: nat, t: nat)
    requires OneDef(blocks) && bi < |blocks|
  {
    exists pc: nat, m: Machine<int, int>, regs: R -> int, w: int ::
      pc <= |blocks[bi]| && (pc == |blocks[bi]| ==> OnPath(blocks, bi, pc)) && Takes(m, blocks, bi, pc, regs, w, t)
  }

  ghost predicate Takes<R(!new)>(m: Machine<int, int>, blocks: seq<Block<R>>, bi: nat, pc: nat, regs: R -> int, w: int,
      t: nat)
    requires OneDef(blocks)
  {
    Step(m, blocks, At(bi, pc, regs, w)) == At(t, 0, regs, w)
  }

  lemma {:induction false} ScanOnlyFinds<R>(block: Block<R>, n: nat, succs: seq<nat>, uncond: bool, nb: nat, t: nat)
    requires n <= |block| && t in ScanBack(block, n, succs, uncond, nb).0
    ensures t in succs || exists i :: 0 <= i < n && BranchesTo(block[i].control, t, nb)
    decreases n
  {
    if n > 0 && IsTerminator(block[n - 1]) {
      var c := block[n - 1].control;
      ScanOnlyFinds(block, n - 1, AddTarget(succs, c, nb), uncond || Unconditional(c), nb, t);
      if t in AddTarget(succs, c, nb) && t !in succs {
        assert BranchesTo(block[n - 1].control, t, nb);
      }
    }
  }

  ghost predicate BranchesTo(c: Control, t: nat, nb: nat) {
    (c.Branch? || c.CondBranch?) && c.target == t < nb
  }

  lemma {:induction false} ScanFlagStays<R>(block: Block<R>, n: nat, succs: seq<nat>, nb: nat)
    requires n <= |block|
    ensures ScanBack(block, n, succs, true, nb).1
    decreases n
  {
    if n > 0 && IsTerminator(block[n - 1]) {
      ScanFlagStays(block, n - 1, AddTarget(succs, block[n - 1].control, nb), nb);
    }
  }

  lemma {:induction false} ScanNotices<R>(block: Block<R>, n: nat, succs: seq<nat>, uncond: bool, nb: nat, i: nat)
    requires n <= |block| && i < n && Unconditional(block[i].control)
    requires forall j :: i <= j < n ==> IsTerminator(block[j])
    ensures ScanBack(block, n, succs, uncond, nb).1
    decreases n
  {
    var c := block[n - 1].control;
    if i == n - 1 {
      ScanFlagStays(block, n - 1, AddTarget(succs, c, nb), nb);
    } else {
      ScanNotices(block, n - 1, AddTarget(succs, c, nb), uncond || Unconditional(c), nb, i);
    }
  }

  lemma BranchGoes<R(!new)>(blocks: seq<Block<R>>, bi: nat, pc: nat, t: nat)
    requires OneDef(blocks) && bi < |blocks| && pc < |blocks[bi]| && BranchesTo(blocks[bi][pc].control, t, |blocks|)
    ensures Goes(blocks, bi, t)
  {
    var m: Machine<int, int> := Machine((op, vs, w) => (0, w), (op, vs, w) => true);
    assert Takes(m, blocks, bi, pc, (r: R) => 0, 0, t);
  }

  lemma FallGoes<R(!new)>(blocks: seq<Block<R>>, bi: nat)
    requires OneDef(blocks) && bi + 1 < |blocks| && OnPath(blocks, bi, |blocks[bi]|)
    ensures Goes(blocks, bi, bi + 1)
  {
    var m: Machine<int, int> := Machine((op, vs, w) => (0, w), (op, vs, w) => true);
    assert Takes(m, blocks, bi, |blocks[bi]|, (r: R) => 0, 0, bi + 1);
  }

  /** The recorded successors of a block are exactly the blocks that a step of some machine leads to. */
  lemma SuccessorsExact<R(!new)>(blocks: seq<Block<R>>, bi: nat, t: nat)
    requires OneDef(blocks) && bi < |blocks| && TerminatorSuffix(blocks[bi]) && TwoSuccessors(blocks[bi], |blocks|)
    ensures t in Successors(blocks[bi], bi, |blocks|) <==> Goes(blocks, bi, t)
  {
    var block, nb := blocks[bi], |blocks|;
    if t in Successors(block, bi, nb) {
      if t in ScanBack(block, |block|, [], false, nb).0 {
        ScanOnlyFinds(block, |block|, [], false, nb, t);
        var pc :| 0 <= pc < |block| && BranchesTo(block[pc].control, t, nb);
        BranchGoes(blocks, bi, pc, t);
      } else {
        forall i | 0 <= i < |block|
          ensures !Unconditional(block[i].control)
        {
          if Unconditional(block[i].control) {
            ScanNotices(block, |block|, [], false, nb, i);
          }
        }
        FallGoes(blocks, bi);
      }
    }
    if Goes(blocks, bi, t) {
      StepIsSuccessor(blocks, bi, t);
    }
  }

  lemma StepIsSuccessor<R(!new)>(blocks: seq<Block<R>>, bi: nat, t: nat)
    requires OneDef(blocks) && bi < |blocks| && TerminatorSuffix(blocks[bi]) && TwoSuccessors(blocks[bi], |blocks|)
    requires Goes(blocks, bi, t)
    ensures t in Successors(blocks[bi], bi, |blocks|)
  {
    hide Successors, TwoSuccessors, TerminatorSuffix, Execute;
    var pc: nat, m: Machine<int, int>, regs: R -> int, w: int :|
      pc <= |blocks[bi]| && (pc == |blocks[bi]| ==> OnPath(blocks, bi, pc)) && Takes(m, blocks, bi, pc, regs, w, t);
    if pc == |blocks[bi]| {
      FallIsSuccessor(blocks, bi);
    } else {
      BranchIsSuccessor(blocks, bi, pc);
    }
  }
}
