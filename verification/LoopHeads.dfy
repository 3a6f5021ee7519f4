/** The head of a divergent loop is run by all lanes in every round, by those that have left as well. */
module LoopHeads {
  import opened DivergentCode
  import opened ExecMachine
  import opened ExecRegisters
  import opened DivergentFunction

  /** A loop with nothing but its head. */
  function Spin(head: seq<Op>, c: nat): Code {
    While(head, c, Done, Done)
  }

  lemma SpinProg(t: Target, head: seq<Op>, c: nat, next: nat)
    ensures var r := SaveReg(t, 0, OpsRegs(Fresh(next), head));
            Lower(t, Spin(head, c), [], 0, 0, Fresh(next), [EndPgm]) ==
            [[], OpsInsts(Fresh(next), head) + [Cmp(c), SaveExec(r), Execz(3)], [Or(r), Branch(1)], [Or(r), EndPgm]]
  {
    hide Lower, OpsRegs, OpsInsts, SaveReg, SpareNext, SpareAfter;
    var x := OpsRegs(Fresh(next), head);
    var r := SaveReg(t, 0, x);
    LowerWhileParts(t, head, c, Done, Done, [], 0, 0, Fresh(next), [EndPgm]);
    OneBlock(t, 2, 1, SpareNext(t, x), [], [Or(r), Branch(1)]);
    OneBlock(t, 3, 0, SpareAfter(t, Done, SpareNext(t, x)), [Or(r)], [EndPgm]);
    assert [] + [Or(r), Branch(1)] == [Or(r), Branch(1)] && [Or(r)] + [EndPgm] == [Or(r), EndPgm];
  }

  lemma OneBlock(t: Target, first: nat, depth: nat, spare: Regs, pre: seq<Inst>, fin: seq<Inst>)
    ensures Lower(t, Done, pre, first, depth, spare, fin) == [pre + fin]
  {
  }

  /** One round over two lanes, of which neither is lost. */
  lemma TwoLanes<L>(sem: Sem<L>, t: Target, head: seq<Op>, c: nat, r: nat, spare: Regs, w: Wave<L>)
      returns (w2: Wave<L>)
    requires LaneOnly(head) && |w.lanes| == 2 && w.exec == {0, 1}
    ensures RunInsts(sem, OpsInsts(spare, head) + [Cmp(c), SaveExec(r), Execz(3)], w)
         == (w2, if w2.exec == {} then Jump(3) else Fall)
    ensures w2.lanes == [RunOps(sem, head, w.lanes[0]), RunOps(sem, head, w.lanes[1])] && Reg(w2, r) == {0, 1}
    ensures forall k: nat :: k in w2.exec <==> k < 2 && sem.holds(c, w2.lanes[k])
  {
    LaneOnlyFed(spare, head, {});
    w2 := LoopHead(sem, t, head, c, r, 3, spare, {}, TakenOps(spare, head) + {r}, w);
    assert w2.lanes == [w2.lanes[0], w2.lanes[1]];
  }

  /** A lane that leaves while another goes on ends as if alone exactly when the head does not change
      it: it is run once more. */
  lemma LeftLaneRepeats<L(!new)>(sem: Sem<L>, t: Target, head: seq<Op>, c: nat, next: nat, l: L, m: L)
      returns (w': Wave<L>)
    requires LaneOnly(head)
    requires var l1, m1 := RunOps(sem, head, l), RunOps(sem, head, m);
             && !sem.holds(c, l1) && !sem.holds(c, RunOps(sem, head, l1))
             && sem.holds(c, m1) && !sem.holds(c, RunOps(sem, head, m1))
    ensures var prog := Lower(t, Spin(head, c), [], 0, 0, Fresh(next), [EndPgm]);
            Reaches(sem, prog, 0, Wave([l, m], {0, 1}, {}, map[]), |prog|, w') && |w'.lanes| == 2
    ensures var l1 := RunOps(sem, head, l); w'.lanes[0] == RunOps(sem, head, l1) && Eval(sem, Spin(head, c), l) == l1
  {
    hide Lower, Reaches, RunInsts, RunOps, OpsInsts, OpsRegs, Spin, Eval;
    var prog := Lower(t, Spin(head, c), [], 0, 0, Fresh(next), [EndPgm]);
    var r := SaveReg(t, 0, OpsRegs(Fresh(next), head));
    SpinProg(t, head, c, next);
    var w := Wave([l, m], {0, 1}, {}, map[]);
    RunNothing(sem, w);
    RunEnter(sem, prog, 0, w);
    var w2 := TwoLanes(sem, t, head, c, r, Fresh(next), w);
    assert w2.exec == {1};
    RunEnter(sem, prog, 1, w);
    RunOn(sem, prog, 0, w, 1, w, 2, w2);
    RunBack(sem, r, 1, w2);
    var w4 := Effect(sem, Or(r), w2);
    RunEnter(sem, prog, 2, w2);
    RunOn(sem, prog, 0, w, 2, w2, 1, w4);
    assert w4.exec == {0, 1} && w4.lanes == w2.lanes;
    var w5 := TwoLanes(sem, t, head, c, r, Fresh(next), w4);
    assert w5.exec == {};
    RunEnter(sem, prog, 1, w4);
    RunOn(sem, prog, 0, w, 1, w4, 3, w5);
    RunOrStop(sem, r, w5);
    w' := Effect(sem, Or(r), w5);
    RunEnter(sem, prog, 3, w5);
    RunOn(sem, prog, 0, w, 3, w5, 4, w');
    SpinAlone(sem, head, c, l);
  }

  lemma RunOrStop<L>(sem: Sem<L>, r: nat, w: Wave<L>)
    ensures RunInsts(sem, [Or(r), EndPgm], w) == (Effect(sem, Or(r), w), Stop)
  {
    RunCons(sem, Or(r), [EndPgm], w);
    RunCons(sem, EndPgm, [], Effect(sem, Or(r), w));
    assert [Or(r)] + ([EndPgm] + []) == [Or(r), EndPgm];
  }

  lemma SpinAlone<L(!new)>(sem: Sem<L>, head: seq<Op>, c: nat, l: L)
    requires !sem.holds(c, RunOps(sem, head, l))
    ensures Eval(sem, Spin(head, c), l) == RunOps(sem, head, l)
  {
    hide Eval;
    OutUnfolds(sem, head, c, Done, l, 0);
  }
}
