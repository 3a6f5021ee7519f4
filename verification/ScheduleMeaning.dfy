/** What a block does, and why reordering independent instructions does not change it. */
module ScheduleMeaning {
  import opened ScheduleDag
  import opened Permutations

  /** Registers, memory and the mask of active lanes. */
  datatype Machine = Machine(regs: imap<nat, int>, mem: int, mask: int)

  ghost predicate Total(s: Machine) {
    forall k: nat :: k in s.regs
  }

  /** The values an instruction computes.  Instructions other than plain ones may do anything. */
  datatype Sem = Sem(reg: (nat, nat, Machine) -> int, mem: (nat, Machine) -> int, any: (nat, Machine) -> Machine)

  /** s and t look the same to instruction x: the registers it reads, the mask, and memory if it
      uses memory. */
  ghost predicate SameView(x: Inst, s: Machine, t: Machine)
    requires Total(s) && Total(t)
  {
    && s.mask == t.mask && (x.load || x.store ==> s.mem == t.mem)
    && forall k: nat :: Reads(x, k) ==> s.regs[k] == t.regs[k]
  }

  /** Plain instructions compute from what they look at. */
  ghost predicate Local(b: Block, sem: Sem) {
    && (forall i, s :: 0 <= i < |b| && Total(s) ==> Total(sem.any(i, s)))
    && (forall i, k: nat, s, t :: 0 <= i < |b| && Total(s) && Total(t) && SameView(b[i], s, t) ==>
          sem.reg(i, k, s) == sem.reg(i, k, t))
    && (forall i, s, t :: 0 <= i < |b| && Total(s) && Total(t) && SameView(b[i], s, t) ==>
          sem.mem(i, s) == sem.mem(i, t))
  }

  ghost function Step(b: Block, sem: Sem, i: nat, s: Machine): Machine
    requires i < |b| && Total(s)
  {
    if b[i].kind != Plain then sem.any(i, s)
    else Machine(imap k: nat | k in s.regs :: if Writes(b[i], k) then sem.reg(i, k, s) else s.regs[k],
                 if b[i].store then sem.mem(i, s) else s.mem, s.mask)
  }

  lemma StepTotal(b: Block, sem: Sem, i: nat, s: Machine)
    requires i < |b| && Total(s) && Local(b, sem)
    ensures Total(Step(b, sem, i, s))
  {
  }

  ghost predicate InBlock(b: Block, order: seq<nat>) {
    forall p :: 0 <= p < |order| ==> order[p] < |b|
  }

  ghost function Run(b: Block, sem: Sem, order: seq<nat>, s: Machine): (r: Machine)
    requires InBlock(b, order) && Total(s) && Local(b, sem)
    ensures Total(r)
  {
    if order == [] then s
    else
      var n := |order| - 1;
      StepTotal(b, sem, order[n], Run(b, sem, order[..n], s));
      Step(b, sem, order[n], Run(b, sem, order[..n], s))
  }

  // ---- Conflicts ----

  /** The earlier instruction x must stay before y. */
  ghost predicate Conflict(x: Inst, y: Inst) {
    || (exists k: nat :: Writes(x, k) && (Reads(y, k) || Writes(y, k)))
    || (exists k: nat :: Reads(x, k) && Writes(y, k))
    || (x.store && (y.load || y.store)) || (x.load && y.store)
  }

  ghost predicate Independent(x: Inst, y: Inst) {
    x.kind == Plain && y.kind == Plain && !Conflict(x, y)
  }

  lemma ViewKept(b: Block, sem: Sem, i: nat, j: nat, s: Machine)
    requires i < |b| && j < |b| && Total(s) && Local(b, sem) && b[i].kind == Plain
    requires forall k: nat :: Writes(b[i], k) ==> !Reads(b[j], k)
    requires b[i].store ==> !b[j].load && !b[j].store
    ensures Total(Step(b, sem, i, s)) && SameView(b[j], s, Step(b, sem, i, s))
  {
    StepTotal(b, sem, i, s);
  }

  lemma Swap(b: Block, sem: Sem, i: nat, j: nat, s: Machine)
    requires i < |b| && j < |b| && Total(s) && Local(b, sem) && Independent(b[i], b[j])
    ensures Total(Step(b, sem, i, s)) && Total(Step(b, sem, j, s))
    ensures Step(b, sem, i, Step(b, sem, j, s)) == Step(b, sem, j, Step(b, sem, i, s))
  {
    hide Reads, Writes;
    ViewKept(b, sem, i, j, s);
    ViewKept(b, sem, j, i, s);
    var u, v := Step(b, sem, i, s), Step(b, sem, j, s);
    var l, r := Step(b, sem, i, v), Step(b, sem, j, u);
    forall k: nat
      ensures k in l.regs && k in r.regs && l.regs[k] == r.regs[k]
    {
      assert sem.reg(i, k, s) == sem.reg(i, k, v) && sem.reg(j, k, s) == sem.reg(j, k, u);
    }
    assert sem.mem(i, s) == sem.mem(i, v) && sem.mem(j, s) == sem.mem(j, u);
    assert l.regs == r.regs;
  }

  // ---- Any order that keeps conflicting pairs ----

  /** Instructions that changed places are independent. */
  ghost predicate KeepsConflicts(b: Block, order: seq<nat>)
    requires InBlock(b, order)
  {
    forall p, q :: 0 <= p < q < |order| && order[p] > order[q] ==> Independent(b[order[q]], b[order[p]])
  }

  /** Moving m to the end over independent instructions. */
  lemma {:induction false} MoveLast(b: Block, sem: Sem, front: seq<nat>, m: nat, back: seq<nat>, s: Machine)
    requires InBlock(b, front) && InBlock(b, back) && m < |b| && Total(s) && Local(b, sem)
    requires forall q :: 0 <= q < |back| ==> Independent(b[back[q]], b[m])
    ensures InBlock(b, front + [m] + back) && InBlock(b, front + back + [m])
    ensures Run(b, sem, front + [m] + back, s) == Run(b, sem, front + back + [m], s)
    decreases |back|
  {
    hide Independent, Local, Step, Run, Total;
    if back == [] {
      assert front + [m] + back == front + back + [m];
    } else {
      var n := |back| - 1;
      var x, rest := back[n], back[..n];
      assert Independent(b[x], b[m]);
      MoveLast(b, sem, front, m, rest, s);
      RunSnoc(b, sem, front + [m] + rest, x, s);
      RunSnoc(b, sem, front + rest, m, s);
      RunSnoc(b, sem, front + rest, x, s);
      RunSnoc(b, sem, front + back, m, s);
      assert front + [m] + back == (front + [m] + rest) + [x] && front + back == (front + rest) + [x];
      Swap(b, sem, x, m, Run(b, sem, front + rest, s));
    }
  }

  lemma RunSnoc(b: Block, sem: Sem, order: seq<nat>, x: nat, s: Machine)
    requires InBlock(b, order) && x < |b| && Total(s) && Local(b, sem)
    ensures InBlock(b, order + [x]) && Run(b, sem, order + [x], s) == Step(b, sem, x, Run(b, sem, order, s))
  {
    hide Local, Step;
    assert (order + [x])[..|order|] == order;
  }

  function Sequence(n: nat): (r: seq<nat>)
    ensures |r| == n && forall p :: 0 <= p < n ==> r[p] == p
  {
    seq(n, i => i)
  }

  /** Same final state, for every order that keeps conflicting pairs in place. */
  lemma {:induction false} SameMeaning(b: Block, sem: Sem, n: nat, order: seq<nat>, s: Machine)
    requires n <= |b| && Permutation(n, order) && Total(s) && Local(b, sem)
    requires InBlock(b, order) && KeepsConflicts(b, order)
    ensures InBlock(b, Sequence(n)) && Run(b, sem, order, s) == Run(b, sem, Sequence(n), s)
  {
    hide Local, Step, Independent, Run, Permutation, KeepsConflicts, Total;
    PermutationSize(n, order);
    if n == 0 {
      assert order == Sequence(n);
    } else {
      var p, back := LastPlace(b, order);
      var front := order[..p];
      var rest := front + back;
      assert order == front + [n - 1] + back;
      MoveLast(b, sem, front, n - 1, back, s);
      RestKeeps(b, order, p);
      SameMeaning(b, sem, n - 1, rest, s);
      assert Sequence(n) == Sequence(n - 1) + [n - 1];
      RunSnoc(b, sem, rest, n - 1, s);
      RunSnoc(b, sem, Sequence(n - 1), n - 1, s);
    }
  }

  lemma PermutationSize(n: nat, order: seq<nat>)
    requires Permutation(n, order)
    ensures |order| == n
  {
  }

  /** The last instruction of the block, with only independent ones after it. */
  lemma LastPlace(b: Block, order: seq<nat>) returns (p: nat, back: seq<nat>)
    requires Permutation(|order|, order) && InBlock(b, order) && KeepsConflicts(b, order) && |order| > 0
    ensures p < |order| && order[p] == |order| - 1 < |b| && back == order[p + 1..]
    ensures forall q :: 0 <= q < |back| ==> Independent(b[back[q]], b[|order| - 1])
  {
    hide Independent;
    var m := |order| - 1;
    assert m in order;
    p :| 0 <= p < |order| && order[p] == m;
    back := order[p + 1..];
    forall q | 0 <= q < |back|
      ensures Independent(b[back[q]], b[m])
    {
      assert back[q] == order[p + 1 + q] && order[p + 1 + q] != m;
    }
  }

  lemma RestKeeps(b: Block, order: seq<nat>, p: nat)
    requires Permutation(|order|, order) && InBlock(b, order) && KeepsConflicts(b, order) && p < |order|
    requires order[p] == |order| - 1
    ensures var rest := order[..p] + order[p + 1..];
            InBlock(b, rest) && KeepsConflicts(b, rest) && Permutation(|order| - 1, rest)
  {
    hide Independent;
    var rest := order[..p] + order[p + 1..];
    forall q | 0 <= q < |rest|
      ensures rest[q] == order[if q < p then q else q + 1] && rest[q] < |order| - 1
    {
      var q' := if q < p then q else q + 1;
      assert order[q'] != order[p];
    }
    Pigeonhole(|order| - 1, rest);
  }

  // ---- What each instruction finds ----

  /** The instruction at place p of the order finds what it found in the old order: what it looks at,
      or the whole state if it is not a plain one. */
  ghost predicate FindsSame(b: Block, sem: Sem, order: seq<nat>, p: nat, s: Machine)
    requires InBlock(b, order) && p < |order| && Total(s) && Local(b, sem)
  {
    var x := order[p];
    var here, there := Run(b, sem, order[..p], s), Run(b, sem, Sequence(x), s);
    if b[x].kind == Plain then SameView(b[x], here, there) else here == there
  }

  ghost predicate SameResult(b: Block, order: seq<nat>) {
    InBlock(b, order) && InBlock(b, Sequence(|b|)) &&
    forall sem, s :: Local(b, sem) && Total(s) ==> Run(b, sem, order, s) == Run(b, sem, Sequence(|b|), s)
  }

  /** The two orders run alike: the same final state, and every instruction finds the same. */
  ghost predicate SameRun(b: Block, order: seq<nat>) {
    SameResult(b, order) &&
    forall sem, s, p: nat :: Local(b, sem) && Total(s) && p < |order| ==> FindsSame(b, sem, order, p, s)
  }

  lemma ViewStep(b: Block, sem: Sem, y: nat, x: nat, s: Machine)
    requires y < |b| && x < |b| && Total(s) && Local(b, sem) && (Independent(b[y], b[x]) || Independent(b[x], b[y]))
    ensures Total(Step(b, sem, y, s)) && SameView(b[x], s, Step(b, sem, y, s))
  {
    ViewKept(b, sem, y, x, s);
  }

  /** Instructions independent of x do not change what it finds. */
  lemma {:induction false} ViewOver(b: Block, sem: Sem, front: seq<nat>, back: seq<nat>, x: nat, s: Machine)
    requires InBlock(b, front) && InBlock(b, back) && x < |b| && Total(s) && Local(b, sem)
    requires forall q :: 0 <= q < |back| ==> Independent(b[back[q]], b[x])
    ensures InBlock(b, front + back) && SameView(b[x], Run(b, sem, front, s), Run(b, sem, front + back, s))
    decreases |back|
  {
    hide Independent, Local, Step, Run;
    if back == [] {
      assert front + back == front;
    } else {
      var n := |back| - 1;
      ViewOver(b, sem, front, back[..n], x, s);
      assert front + back == front + back[..n] + [back[n]];
      RunSnoc(b, sem, front + back[..n], back[n], s);
      ViewStep(b, sem, back[n], x, Run(b, sem, front + back[..n], s));
    }
  }

  /** The last instruction of the block finds the same, wherever it went. */
  lemma LastFinds(b: Block, sem: Sem, order: seq<nat>, p: nat, s: Machine)
    requires 0 < |order| <= |b| && Permutation(|order|, order) && Total(s) && Local(b, sem)
    requires InBlock(b, order) && KeepsConflicts(b, order) && p < |order| && order[p] == |order| - 1
    ensures FindsSame(b, sem, order, p, s)
  {
    hide Local, Step, Independent, Run, Permutation, Total, KeepsConflicts;
    var m, front, back := |order| - 1, order[..p], order[p + 1..];
    RestKeeps(b, order, p);
    SameMeaning(b, sem, m, front + back, s);
    AfterLast(b, order, p);
    if b[m].kind == Plain {
      ViewOver(b, sem, front, back, m, s);
    } else {
      NothingMoved(b, order, p);
      assert front + back == front;
    }
  }

  lemma AfterLast(b: Block, order: seq<nat>, p: nat)
    requires Permutation(|order|, order) && InBlock(b, order) && KeepsConflicts(b, order) && p < |order|
    requires order[p] == |order| - 1
    ensures forall q :: p < q < |order| ==> Independent(b[order[q]], b[|order| - 1])
  {
    hide Independent;
    forall q | p < q < |order|
      ensures Independent(b[order[q]], b[|order| - 1])
    {
      assert order[q] != order[p];
    }
  }

  lemma NothingMoved(b: Block, order: seq<nat>, p: nat)
    requires Permutation(|order|, order) && InBlock(b, order) && KeepsConflicts(b, order) && p < |order|
    requires order[p] == |order| - 1
    requires b[order[p]].kind != Plain
    ensures order[p + 1..] == []
  {
    hide Independent, KeepsConflicts;
    AfterLast(b, order, p);
    if p + 1 < |order| {
      BothPlain(b[order[p + 1]], b[|order| - 1]);
    }
  }

  lemma {:induction false} Finds(b: Block, sem: Sem, order: seq<nat>, p: nat, s: Machine)
    requires |order| <= |b| && Permutation(|order|, order) && Total(s) && Local(b, sem)
    requires InBlock(b, order) && KeepsConflicts(b, order) && p < |order|
    ensures FindsSame(b, sem, order, p, s)
    decreases |order|
  {
    hide Local, Step, Independent, Run, Permutation, Total, KeepsConflicts;
    var m := |order| - 1;
    var q, back := LastPlace(b, order);
    var rest := order[..q] + back;
    if p == q {
      LastFinds(b, sem, order, p, s);
    } else {
      RestKeeps(b, order, q);
      if p < q {
        assert rest[..p] == order[..p] && rest[p] == order[p];
        Finds(b, sem, rest, p, s);
      } else {
        Finds(b, sem, rest, p - 1, s);
        PastLast(b, sem, order, q, p, s);
      }
    }
  }

  /** An instruction now after the last one finds what it would without it. */
  lemma PastLast(b: Block, sem: Sem, order: seq<nat>, q: nat, p: nat, s: Machine)
    requires |order| <= |b| && Permutation(|order|, order) && Total(s) && Local(b, sem)
    requires InBlock(b, order) && KeepsConflicts(b, order) && q < p < |order| && order[q] == |order| - 1
    requires var rest := order[..q] + order[q + 1..]; InBlock(b, rest) && FindsSame(b, sem, rest, p - 1, s)
    ensures FindsSame(b, sem, order, p, s)
  {
    hide Local, Step, Independent, Run, Permutation, Total, KeepsConflicts;
    var m, x, front, back := |order| - 1, order[p], order[..q], order[q + 1..];
    var rest, part := front + back, back[..p - q - 1];
    AfterLast(b, order, q);
    assert rest[p - 1] == x;
    BothPlain(b[x], b[m]);
    assert order[..p] == front + [m] + part && rest[..p - 1] == front + part;
    MoveLast(b, sem, front, m, part, s);
    RunSnoc(b, sem, front + part, m, s);
    ViewStep(b, sem, m, x, Run(b, sem, front + part, s));
  }

  lemma BothPlain(x: Inst, y: Inst)
    requires Independent(x, y)
    ensures x.kind == Plain && y.kind == Plain
  {
  }

  /** Every order that keeps conflicting pairs in place runs like the old one. */
  lemma KeptRunsSame(b: Block, order: seq<nat>)
    requires Permutation(|b|, order) && InBlock(b, order) && KeepsConflicts(b, order)
    ensures SameRun(b, order)
  {
    hide Local, Run, KeepsConflicts, Permutation, Total, FindsSame;
    PermutationSize(|b|, order);
    forall sem, s | Local(b, sem) && Total(s)
      ensures InBlock(b, Sequence(|b|)) && Run(b, sem, order, s) == Run(b, sem, Sequence(|b|), s)
    {
      SameMeaning(b, sem, |b|, order, s);
    }
    forall sem, s, p: nat | Local(b, sem) && Total(s) && p < |order|
      ensures FindsSame(b, sem, order, p, s)
    {
      Finds(b, sem, order, p, s);
    }
  }
}
