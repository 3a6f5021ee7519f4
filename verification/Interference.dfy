/** The interference graph built from liveness, and why a colouring of it keeps the meaning of
    the program. */
module Interference {
  import opened Registers
  import opened MachineIR
  import opened Liveness

  // ---- The edges ----

  /** The source of a copy, whose edge to the destination is left out. */
  predicate CopySource(i: Inst<nat>, v: nat) {
    i.isCopy && |i.uses| > 0 && v == i.uses[0]
  }

  /** The k-th definition of an instruction meets v: v is live after it, not counting the
      definitions before the k-th, in the same file and not the source of a copy. */
  predicate Meets(i: Inst<nat>, k: nat, after: set<nat>, files: seq<File>, v: nat)
    requires k < |i.defs|
  {
    && v in after - Elements(i.defs[..k]) && v != i.defs[k] && !CopySource(i, v)
    && v < |files| && i.defs[k] < |files| && files[v] == files[i.defs[k]]
  }

  /** Instruction `pc` of block b defines u where v is live. */
  ghost predicate DefinedAcross(blocks: seq<Block<nat>>, outs: Sets, files: seq<File>, b: nat, pc: nat, u: nat, v: nat)
    requires b < |blocks| == |outs| && pc < |blocks[b]|
  {
    var i := blocks[b][pc];
    exists k :: 0 <= k < |i.defs| && i.defs[k] == u && Meets(i, k, LiveFrom(blocks[b], pc + 1, outs[b]), files, v)
  }

  ghost predicate Interferes(blocks: seq<Block<nat>>, outs: Sets, files: seq<File>, u: nat, v: nat)
    requires |blocks| == |outs|
  {
    exists b, pc :: 0 <= b < |blocks| && 0 <= pc < |blocks[b]| && DefinedAcross(blocks, outs, files, b, pc, u, v)
  }

  ghost predicate Edge(blocks: seq<Block<nat>>, outs: Sets, files: seq<File>, u: nat, v: nat)
    requires |blocks| == |outs|
  {
    Interferes(blocks, outs, files, u, v) || Interferes(blocks, outs, files, v, u)
  }

  // ---- Rewriting to physical registers ----

  /** A physical register: a file and a number in it. */
  datatype Loc = Loc(file: File, num: int)

  function Place(files: seq<File>, colour: seq<int>, v: nat): Loc
    requires v < |files| == |colour|
  {
    Loc(files[v], colour[v])
  }

  ghost predicate Bounded(s: seq<nat>, n: nat) {
    forall i :: 0 <= i < |s| ==> s[i] < n
  }

  function Rename(files: seq<File>, colour: seq<int>, s: seq<nat>): (r: seq<Loc>)
    requires |files| == |colour| && Bounded(s, |files|)
    ensures |r| == |s| && forall i :: 0 <= i < |s| ==> r[i] == Place(files, colour, s[i])
  {
    seq(|s|, i requires 0 <= i < |s| => Place(files, colour, s[i]))
  }

  ghost predicate InstBounded(i: Inst<nat>, n: nat) {
    Bounded(i.defs, n) && Bounded(i.uses, n)
  }

  /** rw_ops on one instruction. */
  function RewriteInst(files: seq<File>, colour: seq<int>, i: Inst<nat>): Inst<Loc>
    requires |files| == |colour| && InstBounded(i, |files|)
  {
    Inst(i.op, Rename(files, colour, i.defs), Rename(files, colour, i.uses), i.isCopy, i.control)
  }

  ghost predicate BlockBounded(block: Block<nat>, n: nat) {
    forall i :: 0 <= i < |block| ==> InstBounded(block[i], n)
  }

  function RewriteBlock(files: seq<File>, colour: seq<int>, block: Block<nat>): (r: Block<Loc>)
    requires |files| == |colour| && BlockBounded(block, |files|)
    ensures |r| == |block|
  {
    seq(|block|, i requires 0 <= i < |block| => RewriteInst(files, colour, block[i]))
  }

  ghost predicate AllBounded(blocks: seq<Block<nat>>, n: nat) {
    forall b :: 0 <= b < |blocks| ==> BlockBounded(blocks[b], n)
  }

  function Rewrite(files: seq<File>, colour: seq<int>, blocks: seq<Block<nat>>): (r: seq<Block<Loc>>)
    requires |files| == |colour| && AllBounded(blocks, |files|)
    ensures |r| == |blocks|
  {
    seq(|blocks|, b requires 0 <= b < |blocks| => RewriteBlock(files, colour, blocks[b]))
  }

  // ---- The programs the theorem is about ----

  /** One definition per instruction, terminators as a suffix with at most two successors. */
  ghost predicate WellShaped(blocks: seq<Block<nat>>, n: nat) {
    && AllBounded(blocks, n)
    && (forall b :: 0 <= b < |blocks| ==> TerminatorSuffix(blocks[b]) && TwoSuccessors(blocks[b], |blocks|))
    && OneDef(blocks)
  }

  /** The live-in and live-out sets satisfy the dataflow inequalities of the real control flow. */
  ghost predicate SafeLiveness(blocks: seq<Block<nat>>, outs: Sets) {
    && |outs| == |blocks|
    && (forall b, s :: 0 <= b < |blocks| && s in Successors(blocks[b], b, |blocks|) && s < |blocks| ==>
          LiveFrom(blocks[s], 0, outs[s]) <= outs[b])
  }

  /** No two registers joined by an edge share a place. */
  ghost predicate ProperColouring(blocks: seq<Block<nat>>, outs: Sets, files: seq<File>, colour: seq<int>)
    requires |blocks| == |outs|
  {
    && |colour| == |files|
    && (forall u, v :: 0 <= u < |files| && 0 <= v < |files| && Edge(blocks, outs, files, u, v) ==>
          Place(files, colour, u) != Place(files, colour, v))
  }

  // ---- One step ----

  /** The two machines are at the same point, in the same world, and every live virtual register
      has its value in its physical place. */
  ghost predicate Related<V(!new), W(!new)>(blocks: seq<Block<nat>>, outs: Sets, files: seq<File>, colour: seq<int>,
                              c: Config<nat, V, W>, p: Config<Loc, V, W>)
    requires |blocks| == |outs| && |files| == |colour|
  {
    match c
    case Halted(w) => p == Halted(w)
    case At(bi, pc, regs, w) =>
      && p.At? && p.bi == bi && p.pc == pc && p.world == w
      && OnPath(blocks, bi, pc)
      && Agree(LiveFrom(blocks[bi], pc, outs[bi]), files, colour, regs, p.regs)
  }

  ghost predicate Agree<V(!new)>(live: set<nat>, files: seq<File>, colour: seq<int>, regs: nat -> V, phys: Loc -> V)
    requires |files| == |colour|
  {
    forall v: nat :: v in live && v < |files| ==> phys(Place(files, colour, v)) == regs(v)
  }

  lemma SameValues<V(!new)>(uses: seq<nat>, live: set<nat>, files: seq<File>, colour: seq<int>, regs: nat -> V,
      phys: Loc -> V)
    requires |files| == |colour| && Bounded(uses, |files|) && Elements(uses) <= live
    requires Agree(live, files, colour, regs, phys)
    ensures Values(phys, Rename(files, colour, uses)) == Values(regs, uses)
  {
  }

  /** Writing x to the defined register, from some agreeing contents, loses the value of v. */
  ghost predicate Loses(i: Inst<nat>, after: set<nat>, files: seq<File>, colour: seq<int>, v: nat, regs: nat -> int,
      phys: Loc -> int, x: int)
    requires |files| == |colour| && InstBounded(i, |files|) && |i.defs| == 1 && v < |files|
  {
    && Agree(Before(i, after), files, colour, regs, phys) && (i.isCopy && |i.uses| > 0 ==> x == regs(i.uses[0]))
    && v in after
    && Write(phys, Place(files, colour, i.defs[0]), x)(Place(files, colour, v)) != Write(regs, i.defs[0], x)(v)
  }

  /** An edge is there for a reason: if a register shares the place of the one defined, and a copy's
      source is not there already, some contents are lost exactly when the two meet. */
  lemma MeetsIsNeeded(i: Inst<nat>, after: set<nat>, files: seq<File>, colour: seq<int>, v: nat)
    requires |files| == |colour| && InstBounded(i, |files|) && |i.defs| == 1 && v < |files| && v != i.defs[0]
    requires Place(files, colour, v) == Place(files, colour, i.defs[0])
    requires i.isCopy && |i.uses| > 0 && i.uses[0] != v ==>
               Place(files, colour, i.uses[0]) != Place(files, colour, v)
    ensures Meets(i, 0, after, files, v) <==>
              exists regs: nat -> int, phys: Loc -> int, x: int :: Loses(i, after, files, colour, v, regs, phys, x)
  {
    assert i.defs[..0] == [];
    if Meets(i, 0, after, files, v) {
      if i.isCopy && |i.uses| > 0 {
        var home := Place(files, colour, i.uses[0]);
        var phys: Loc -> int := l => if l == home then 1 else 0;
        var regs: nat -> int := (r: nat) => if r < |files| == |colour| && Place(files, colour, r) == home then 1 else 0;
        assert Loses(i, after, files, colour, v, regs, phys, 1);
      } else {
        var phys: Loc -> int := l => 0;
        var regs: nat -> int := r => 0;
        assert Loses(i, after, files, colour, v, regs, phys, 1);
      }
    }
  }

  /** Writing the defined register keeps agreement on everything live after: a register sharing
      its place would be joined to it by an edge, unless it is the source of the copy and so
      holds the very value written. */
  lemma WriteAgrees<V(!new)>(i: Inst<nat>, after: set<nat>, files: seq<File>, colour: seq<int>,
                       regs: nat -> V, phys: Loc -> V, x: V)
    requires |files| == |colour| && InstBounded(i, |files|) && |i.defs| == 1
    requires Agree(Before(i, after), files, colour, regs, phys)
    requires forall v: nat :: v < |files| && Meets(i, 0, after, files, v) ==>
               Place(files, colour, i.defs[0]) != Place(files, colour, v)
    requires i.isCopy && |i.uses| > 0 ==> x == regs(i.uses[0])
    ensures Agree(after, files, colour, Write(regs, i.defs[0], x), Write(phys, Place(files, colour, i.defs[0]), x))
  {
    var d := i.defs[0];
    assert i.defs[..0] == [];
    forall v: nat | v in after && v < |files|
      ensures Write(phys, Place(files, colour, d), x)(Place(files, colour, v)) == Write(regs, d, x)(v)
    {
      if v != d {
        assert v in Before(i, after);
        if Place(files, colour, v) == Place(files, colour, d) {
          assert !Meets(i, 0, after, files, v);
          assert CopySource(i, v);
        }
      }
    }
  }

  lemma TargetLive(blocks: seq<Block<nat>>, outs: Sets, bi: nat, pc: nat)
    requires bi < |blocks| == |outs| && pc <= |blocks[bi]| && TerminatorSuffix(blocks[bi])
    requires pc < |blocks[bi]| ==> IsTerminator(blocks[bi][pc])
    ensures outs[bi] <= LiveFrom(blocks[bi], pc, outs[bi])
    decreases |blocks[bi]| - pc
  {
    if pc < |blocks[bi]| {
      TargetLive(blocks, outs, bi, pc + 1);
      assert blocks[bi][pc].defs == [];
    }
  }

  /** A jump to a successor keeps the relation: what is live there was live out of here. */
  lemma JumpRelated<V(!new), W(!new)>(blocks: seq<Block<nat>>, outs: Sets, files: seq<File>, colour: seq<int>,
                        bi: nat, live: set<nat>, t: int, regs: nat -> V, phys: Loc -> V, w: W)
    requires SafeLiveness(blocks, outs) && |files| == |colour| && bi < |blocks|
    requires outs[bi] <= live && Agree(live, files, colour, regs, phys)
    requires 0 <= t < |blocks| ==> t in Successors(blocks[bi], bi, |blocks|)
    ensures Related(blocks, outs, files, colour, Goto(|blocks|, t, regs, w), Goto(|blocks|, t, phys, w))
  {
  }

  /** A plain instruction keeps the relation. */
  lemma ExecuteRelated<V(!new), W(!new)>(m: Machine<V, W>, blocks: seq<Block<nat>>, outs: Sets, files: seq<File>,
      colour: seq<int>, bi: nat, pc: nat, regs: nat -> V, phys: Loc -> V, w: W)
    requires WellShaped(blocks, |files|) && |blocks| == |outs| && ProperColouring(blocks, outs, files, colour)
    requires bi < |blocks| && pc < |blocks[bi]|
    requires Agree(LiveFrom(blocks[bi], pc, outs[bi]), files, colour, regs, phys)
    ensures InstBounded(blocks[bi][pc], |files|)
    ensures var i := blocks[bi][pc];
            var (r, w1) := Execute(m, i, regs, w);
            var (q, w2) := Execute(m, RewriteInst(files, colour, i), phys, w);
            w1 == w2 && Agree(LiveFrom(blocks[bi], pc + 1, outs[bi]), files, colour, r, q)
  {
    var i, after := blocks[bi][pc], LiveFrom(blocks[bi], pc + 1, outs[bi]);
    assert BlockBounded(blocks[bi], |files|);
    assert InstBounded(i, |files|);
    assert LiveFrom(blocks[bi], pc, outs[bi]) == Before(i, after);
    SameValues(i.uses, Before(i, after), files, colour, regs, phys);
    if i.defs != [] {
      forall v: nat | v < |files| && Meets(i, 0, after, files, v)
        ensures Place(files, colour, i.defs[0]) != Place(files, colour, v)
      {
        assert DefinedAcross(blocks, outs, files, bi, pc, i.defs[0], v);
        assert Interferes(blocks, outs, files, i.defs[0], v);
        assert Edge(blocks, outs, files, i.defs[0], v);
      }
      var vals := Values(regs, i.uses);
      var x := if i.isCopy && |vals| > 0 then vals[0] else m.eval(i.op, vals, w).0;
      WriteAgrees(i, after, files, colour, regs, phys, x);
    } else {
      assert after <= Before(i, after);
    }
  }

  // ---- Whole runs ----

  lemma RewriteShape(files: seq<File>, colour: seq<int>, blocks: seq<Block<nat>>)
    requires |files| == |colour| && WellShaped(blocks, |files|)
    ensures forall b :: 0 <= b < |blocks| ==> |Rewrite(files, colour, blocks)[b]| == |blocks[b]|
    ensures forall b, i :: 0 <= b < |blocks| && 0 <= i < |blocks[b]| ==>
              InstBounded(blocks[b][i], |files|)
              && Rewrite(files, colour, blocks)[b][i] == RewriteInst(files, colour, blocks[b][i])
    ensures OneDef(Rewrite(files, colour, blocks))
  {
  }

  /** One step of the virtual program is one step of the rewritten program. */
  lemma StepRelated<V(!new), W(!new)>(m: Machine<V, W>, blocks: seq<Block<nat>>, outs: Sets, files: seq<File>,
      colour: seq<int>, c: Config<nat, V, W>, p: Config<Loc, V, W>)
    requires WellShaped(blocks, |files|) && SafeLiveness(blocks, outs) && ProperColouring(blocks, outs, files, colour)
    requires Related(blocks, outs, files, colour, c, p)
    ensures OneDef(Rewrite(files, colour, blocks))
    ensures Related(blocks, outs, files, colour, Step(m, blocks, c), Step(m, Rewrite(files, colour, blocks), p))
  {
    RewriteShape(files, colour, blocks);
    if c.At? {
      var bi, pc := c.bi, c.pc;
      var live := LiveFrom(blocks[bi], pc, outs[bi]);
      if pc == |blocks[bi]| {
        if bi + 1 < |blocks| {
          FallIsSuccessor(blocks, bi);
        }
        JumpRelated(blocks, outs, files, colour, bi, live, bi + 1, c.regs, p.regs, c.world);
      } else {
        var i := blocks[bi][pc];
        assert Rewrite(files, colour, blocks)[bi][pc] == RewriteInst(files, colour, i);
        if i.control.Next? {
          ExecuteRelated(m, blocks, outs, files, colour, bi, pc, c.regs, p.regs, c.world);
        } else {
          TargetLive(blocks, outs, bi, pc);
          SameValues(i.uses, live, files, colour, c.regs, p.regs);
          assert InstBounded(i, |files|);
          BranchRelated(m, blocks, outs, files, colour, c, p);
        }
      }
    }
  }

  lemma BranchRelated<V(!new), W(!new)>(m: Machine<V, W>, blocks: seq<Block<nat>>, outs: Sets, files: seq<File>,
      colour: seq<int>, c: Config<nat, V, W>, p: Config<Loc, V, W>)
    requires WellShaped(blocks, |files|) && SafeLiveness(blocks, outs) && |files| == |colour|
    requires Related(blocks, outs, files, colour, c, p)
    requires c.At? && c.pc < |blocks[c.bi]| && IsTerminator(blocks[c.bi][c.pc])
    requires outs[c.bi] <= LiveFrom(blocks[c.bi], c.pc, outs[c.bi])
    requires InstBounded(blocks[c.bi][c.pc], |files|)
    requires Values(p.regs, Rename(files, colour, blocks[c.bi][c.pc].uses)) == Values(c.regs, blocks[c.bi][c.pc].uses)
    ensures OneDef(Rewrite(files, colour, blocks))
    ensures Related(blocks, outs, files, colour, Step(m, blocks, c), Step(m, Rewrite(files, colour, blocks), p))
  {
    RewriteShape(files, colour, blocks);
    var bi, pc := c.bi, c.pc;
    var i, live := blocks[bi][pc], LiveFrom(blocks[bi], pc, outs[bi]);
    assert Rewrite(files, colour, blocks)[bi][pc] == RewriteInst(files, colour, i);
    if i.control.Branch? || i.control.CondBranch? {
      assert 0 <= i.control.target < |blocks| ==> i.control.target in Successors(blocks[bi], bi, |blocks|) by {
        if 0 <= i.control.target < |blocks| {
          BranchIsSuccessor(blocks, bi, pc);
        }
      }
      JumpRelated(blocks, outs, files, colour, bi, live, i.control.target, c.regs, p.regs, c.world);
      if i.control.CondBranch? {
        PassedRelated(blocks, outs, files, colour, c, p);
      }
    }
    hide WellShaped, SafeLiveness, Rewrite, LiveFrom, Related, TwoSuccessors;
  }

  /** A conditional branch not taken. */
  lemma PassedRelated<V(!new), W(!new)>(blocks: seq<Block<nat>>, outs: Sets, files: seq<File>, colour: seq<int>,
                          c: Config<nat, V, W>, p: Config<Loc, V, W>)
    requires WellShaped(blocks, |files|) && |blocks| == |outs| && |files| == |colour|
    requires Related(blocks, outs, files, colour, c, p)
    requires c.At? && c.pc < |blocks[c.bi]| && blocks[c.bi][c.pc].control.CondBranch?
    ensures Related(blocks, outs, files, colour, At(c.bi, c.pc + 1, c.regs, c.world),
                    At(c.bi, c.pc + 1, p.regs, c.world))
  {
    assert TerminatorSuffix(blocks[c.bi]);
    assert blocks[c.bi][c.pc].defs == [];
    assert LiveFrom(blocks[c.bi], c.pc + 1, outs[c.bi]) <= LiveFrom(blocks[c.bi], c.pc, outs[c.bi]);
  }

  /** Allocation by colouring preserves meaning: after any number of steps the two programs are
      at the same point in the same world, with every live register's value in its place. */
  lemma {:induction false} RunRelated<V(!new), W(!new)>(m: Machine<V, W>, blocks: seq<Block<nat>>, outs: Sets,
                                            files: seq<File>, colour: seq<int>,
                                            c: Config<nat, V, W>, p: Config<Loc, V, W>, n: nat)
    requires WellShaped(blocks, |files|) && SafeLiveness(blocks, outs) && ProperColouring(blocks, outs, files, colour)
    requires Related(blocks, outs, files, colour, c, p)
    ensures OneDef(Rewrite(files, colour, blocks))
    ensures Related(blocks, outs, files, colour, Run(m, blocks, c, n), Run(m, Rewrite(files, colour, blocks), p, n))
    decreases n
  {
    StepRelated(m, blocks, outs, files, colour, c, p);
    if n > 0 {
      RunRelated(m, blocks, outs, files, colour, Step(m, blocks, c), Step(m, Rewrite(files, colour, blocks), p), n - 1);
    }
  }
}
