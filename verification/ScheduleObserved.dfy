/** When all the orders that the graph allows leave the same final state: a reader whose result
    nobody can see may go astray, any other may not. */
module ScheduleObserved {
  import opened ScheduleDag
  import opened ScheduleMeaning
  import opened ScheduleOrder
  import opened Permutations

  // ---- What can be seen ----

  ghost predicate PlainWriter(b: Block, m: nat, k: nat) {
    m < |b| && b[m].kind == Plain && Writes(b[m], k)
  }

  /** What x wrote to k is still there before y. */
  ghost predicate Alive(b: Block, x: nat, k: nat, y: nat) {
    forall m: nat :: x < m < y ==> !PlainWriter(b, m, k)
  }

  /** y sees what x wrote to k: it is not plain, or it reads k and can itself be seen. */
  ghost predicate Sees(b: Block, x: nat, k: nat, y: nat)
    decreases |b| - x, 0
  {
    x < y < |b| && Alive(b, x, k, y) && (b[y].kind != Plain || (Reads(b[y], k) && Observed(b, y)))
  }

  /** What x wrote to k reaches the end of the block or is seen. */
  ghost predicate Shows(b: Block, x: nat, k: nat)
    decreases |b| - x, 1
  {
    Alive(b, x, k, |b|) || exists y: nat :: Sees(b, x, k, y)
  }

  /** The effect of x can be seen: in memory, or in something it wrote. */
  ghost predicate Observed(b: Block, x: nat)
    decreases |b| - x, 2
  {
    x < |b| && b[x].kind == Plain && (b[x].store || exists k: nat :: Writes(b[x], k) && Shows(b, x, k))
  }

  /** Every reader that can be seen is led to every later writer of its key in the epoch. */
  ghost predicate ObservedLed(b: Block) {
    forall k: nat, i: nat, j: nat :: PlainPair(b, i, j) && Reads(b[i], k) && Writes(b[j], k) && Observed(b, i) ==>
        Joined(b, i, j)
  }

  // ---- Places in the order ----

  /** Unless both are plain and of one epoch, instructions keep their order; led ones do as well. */
  lemma KeepOrder(b: Block, order: seq<nat>, x: nat, m: nat)
    requires Shape(b) && Good(b, order) && x < m < |b| && (PlainPair(b, x, m) ==> Joined(b, x, m))
    ensures Before(order, x, m)
  {
    hide Joined, Required, Zone, Shape, PlainPair;
    if PlainPair(b, x, m) {
      PathKept(b, order, x, m);
    } else {
      ZoneMonotone(b, x, m);
      assert x in order && m in order;
      var p :| 0 <= p < |order| && order[p] == x;
      var q :| 0 <= q < |order| && order[q] == m;
      assert p != q;
    }
  }

  lemma WriterFirst(b: Block, order: seq<nat>, k: nat, x: nat, m: nat)
    requires Shape(b) && Good(b, order) && x < m < |b| && b[x].kind == Plain && Writes(b[x], k)
    requires b[m].kind == Plain ==> Reads(b[m], k) || Writes(b[m], k)
    ensures Before(order, x, m)
  {
    hide Joined, Good, Shape, Reads, Writes;
    if PlainPair(b, x, m) {
      WriteFirst(b, k, x, m);
    }
    KeepOrder(b, order, x, m);
  }

  lemma FixedFirst(b: Block, order: seq<nat>, x: nat, m: nat)
    requires Shape(b) && Good(b, order) && x < m < |b| && (b[x].kind != Plain || b[m].kind != Plain)
    ensures Before(order, x, m)
  {
    hide Joined, Good, Shape;
    KeepOrder(b, order, x, m);
  }

  lemma PlacedBefore(n: nat, order: seq<nat>, p: nat, x: nat, m: nat)
    requires Partial(n, order) && Before(order, x, m) && p <= |order|
    ensures m in order[..p] ==> x in order[..p]
    ensures p < |order| && order[p] == m ==> x in order[..p]
    ensures p < |order| && order[p] == x ==> m !in order[..p] && m !in order[..p + 1]
  {
    var u, v :| 0 <= u < v < |order| && order[u] == x && order[v] == m;
    if m in order[..p] {
      var w :| 0 <= w < p && order[w] == m;
      assert w == v;
      assert order[..p][u] == x;
    }
    if p < |order| && order[p] == m {
      assert p == v;
      assert order[..p][u] == x;
    }
    if p < |order| && order[p] == x {
      assert p == u;
      assert forall w :: 0 <= w <= p ==> order[w] != m;
    }
  }

  lemma GoodPartial(b: Block, order: seq<nat>)
    requires Good(b, order)
    ensures Partial(|b|, order) && |order| == |b| && InBlock(b, order) && forall x: nat :: x < |b| ==> x in order
  {
  }

  lemma PlacedNext(order: seq<nat>, p: nat, x: nat)
    requires p < |order|
    ensures x in order[..p + 1] <==> x in order[..p] || x == order[p]
  {
    assert order[..p + 1] == order[..p] + [order[p]];
  }

  // ---- Blanking what cannot be seen ----

  ghost predicate Blind(b: Block, x: nat) {
    x < |b| && b[x].kind == Plain && !Observed(b, x)
  }

  /** The last to set k in the order so far is a blind instruction. */
  ghost predicate Dirty(b: Block, done: seq<nat>, k: nat) {
    exists q: nat :: q < |done| && Blind(b, done[q]) && Writes(b[done[q]], k) && Untouched(b, done, k, q)
  }

  ghost predicate Untouched(b: Block, done: seq<nat>, k: nat, q: nat) {
    forall r: nat :: q < r < |done| ==> done[r] < |b| && b[done[r]].kind == Plain && !Writes(b[done[r]], k)
  }

  function OnlyDefs(acc: seq<Access>): (r: seq<Access>)
    ensures forall k :: Def(k) in r <==> Def(k) in acc
    ensures forall k :: Use(k) !in r
  {
    if acc == [] then []
    else
      var m := |acc| - 1;
      assert acc == acc[..m] + [acc[m]];
      if acc[m].Def? then OnlyDefs(acc[..m]) + [acc[m]] else OnlyDefs(acc[..m])
  }

  /** The block whose blind instructions read nothing. */
  ghost function Blanked(b: Block): (c: Block)
    ensures |c| == |b| && forall x :: 0 <= x < |b| ==>
              c[x] == if Blind(b, x) then b[x].(acc := OnlyDefs(b[x].acc)) else b[x]
  {
    seq(|b|, x requires 0 <= x < |b| => if Blind(b, x) then b[x].(acc := OnlyDefs(b[x].acc)) else b[x])
  }

  /** The meaning in which they write nothing but 0. */
  ghost function Quieted(b: Block, sem: Sem): Sem {
    Sem((x: nat, k: nat, s: Machine) => if Blind(b, x) then 0 else sem.reg(x, k, s),
        (x: nat, s: Machine) => if Blind(b, x) then 0 else sem.mem(x, s), sem.any)
  }

  lemma BlankedFacts(b: Block)
    ensures forall x, k :: 0 <= x < |b| ==> (Writes(Blanked(b)[x], k) <==> Writes(b[x], k))
    ensures forall x, k :: 0 <= x < |b| ==> (Reads(Blanked(b)[x], k) <==> Reads(b[x], k) && !Blind(b, x))
    ensures forall x :: 0 <= x < |b| ==>
              Blanked(b)[x].kind == b[x].kind && Blanked(b)[x].load == b[x].load && Blanked(b)[x].store == b[x].store
  {
    hide Blind;
  }

  lemma QuietedLocal(b: Block, sem: Sem)
    requires Local(b, sem)
    ensures Local(Blanked(b), Quieted(b, sem))
  {
    BlankedFacts(b);
    var c, q := Blanked(b), Quieted(b, sem);
    hide Reads, Writes, Blind, Observed;
    forall i, k: nat, s, t | 0 <= i < |c| && Total(s) && Total(t) && SameView(c[i], s, t)
      ensures q.reg(i, k, s) == q.reg(i, k, t)
    {
      if !Blind(b, i) {
        assert SameView(b[i], s, t);
      }
    }
    forall i, s, t | 0 <= i < |c| && Total(s) && Total(t) && SameView(c[i], s, t)
      ensures q.mem(i, s) == q.mem(i, t)
    {
      if !Blind(b, i) {
        assert SameView(b[i], s, t);
      }
    }
  }

  /** The two runs so far agree on everything but dirty keys. */
  ghost predicate Alike(b: Block, done: seq<nat>, s: Machine, t: Machine) {
    Total(s) && Total(t) && s.mem == t.mem && s.mask == t.mask
    && forall k: nat :: !Dirty(b, done, k) ==> s.regs[k] == t.regs[k]
  }

  /** A dirty key was written by a blind instruction, and nothing that sets the key came after it. */
  lemma DirtyWriter(b: Block, done: seq<nat>, k: nat) returns (q: nat)
    requires Dirty(b, done, k)
    ensures q < |done| && Blind(b, done[q]) && Writes(b[done[q]], k) && Untouched(b, done, k, q)
  {
    q :| q < |done| && Blind(b, done[q]) && Writes(b[done[q]], k) && Untouched(b, done, k, q);
  }

  /** What the blind writer of a dirty key left is alive before y, if every later writer in front of
      y comes before y in the order. */
  lemma DirtyAlive(b: Block, order: seq<nat>, p: nat, k: nat, q: nat, y: nat)
    requires Shape(b) && Good(b, order) && q < p <= |order| && order[q] < |b| && Blind(b, order[q])
    requires Writes(b[order[q]], k)
    requires Untouched(b, order[..p], k, q)
    requires forall m: nat :: order[q] < m < y && PlainWriter(b, m, k) ==> m in order[..p]
    ensures Alive(b, order[q], k, y)
  {
    hide Shape, Good, Observed, Reads, Writes;
    GoodPartial(b, order);
    var x := order[q];
    forall m: nat | x < m < y
      ensures !PlainWriter(b, m, k)
    {
      if PlainWriter(b, m, k) {
        WriterFirst(b, order, k, x, m);
        AfterIn(|b|, order, p, q, m);
      }
    }
  }

  lemma AfterIn(n: nat, order: seq<nat>, p: nat, q: nat, m: nat)
    requires Partial(n, order) && q < p <= |order| && Before(order, order[q], m) && m in order[..p]
    ensures exists r: nat :: q < r < p && order[..p][r] == m
  {
    var r :| 0 <= r < p && order[..p][r] == m;
    var u, v :| 0 <= u < v < |order| && order[u] == order[q] && order[v] == m;
    assert u == q && v == r;
  }

  /** Nothing is dirty in front of an instruction that is not plain, or at the end. */
  lemma NothingDirty(b: Block, order: seq<nat>, p: nat, y: nat, k: nat)
    requires Shape(b) && Good(b, order) && p <= |order| && y <= |b|
    requires if y == |b| then p == |order| else p < |order| && order[p] == y && b[y].kind != Plain
    ensures !Dirty(b, order[..p], k)
  {
    hide Shape, Good, Observed, Reads, Writes, Alive, Untouched;
    GoodPartial(b, order);
    if Dirty(b, order[..p], k) {
      var q := DirtyWriter(b, order[..p], k);
      var x := order[q];
      assert order[..p][q] == x;
      assert x < y by {
        if y < |b| {
          NotAfter(b, order, p, q, y);
        }
      }
      forall m: nat | x < m < y && PlainWriter(b, m, k)
        ensures m in order[..p]
      {
        InFront(b, order, p, y, m);
      }
      DirtyAlive(b, order, p, k, q, y);
      AliveShows(b, x, k, y);
    }
  }

  /** What is alive at the end, or before an instruction that can see it, can be seen. */
  lemma AliveShows(b: Block, x: nat, k: nat, y: nat)
    requires x < |b| && b[x].kind == Plain && Writes(b[x], k) && x < y <= |b| && Alive(b, x, k, y)
    requires y < |b| ==> b[y].kind != Plain || (Reads(b[y], k) && Observed(b, y))
    ensures Observed(b, x)
  {
    hide Alive, Reads, Writes;
    assert y < |b| ==> Sees(b, x, k, y);
    assert Shows(b, x, k);
  }

  lemma NotAfter(b: Block, order: seq<nat>, p: nat, q: nat, y: nat)
    requires Shape(b) && Good(b, order) && q < p < |order| && order[p] == y < |b| && b[y].kind != Plain
    ensures order[q] < y
  {
    hide Shape, Good;
    GoodPartial(b, order);
    if order[q] > y {
      FixedFirst(b, order, y, order[q]);
    }
  }

  lemma InFront(b: Block, order: seq<nat>, p: nat, y: nat, m: nat)
    requires Shape(b) && Good(b, order) && p <= |order| && m < y <= |b|
    requires if y == |b| then p == |order| else p < |order| && order[p] == y && b[y].kind != Plain
    ensures m in order[..p]
  {
    hide Shape, Good;
    GoodPartial(b, order);
    if y == |b| {
      assert order[..p] == order;
    } else {
      FixedFirst(b, order, m, y);
      PlacedBefore(|b|, order, p, m, y);
    }
  }

  /** An instruction that can be seen reads nothing dirty. */
  lemma ReadsClean(b: Block, order: seq<nat>, p: nat, k: nat)
    requires Shape(b) && Good(b, order) && ObservedLed(b) && p < |order| && order[p] < |b| && Observed(b, order[p])
    requires Reads(b[order[p]], k)
    ensures !Dirty(b, order[..p], k)
  {
    hide Shape, Good, Reads, Writes, Alive, Untouched, ObservedLed, Joined, Observed;
    GoodPartial(b, order);
    var y := order[p];
    ObservedPlain(b, y);
    if Dirty(b, order[..p], k) {
      var q := DirtyWriter(b, order[..p], k);
      var x := order[q];
      assert order[..p][q] == x;
      if y < x {
        Led(b, k, y, x);
        LedFirst(b, order, k, y, x);
      } else {
        assert x != y;
        forall m: nat | x < m < y && PlainWriter(b, m, k)
          ensures m in order[..p]
        {
          WriterFirst(b, order, k, m, y);
          PlacedBefore(|b|, order, p, m, y);
        }
        DirtyAlive(b, order, p, k, q, y);
        AliveShows(b, x, k, y);
      }
    }
  }

  lemma Led(b: Block, k: nat, i: nat, j: nat)
    requires ObservedLed(b) && Observed(b, i) && i < |b| && j < |b| && Reads(b[i], k) && Writes(b[j], k)
    ensures PlainPair(b, i, j) ==> Joined(b, i, j)
  {
    hide Joined, Observed;
  }

  lemma ObservedPlain(b: Block, y: nat)
    requires Observed(b, y)
    ensures y < |b| && b[y].kind == Plain
  {
  }

  /** A reader that can be seen stays before a later writer. */
  lemma LedFirst(b: Block, order: seq<nat>, k: nat, y: nat, x: nat)
    requires Shape(b) && Good(b, order) && y < x < |b| && Observed(b, y) && Reads(b[y], k) && Writes(b[x], k)
    requires PlainPair(b, y, x) ==> Joined(b, y, x)
    ensures Before(order, y, x)
  {
    hide Joined, Good, Shape, Observed;
    KeepOrder(b, order, y, x);
  }

  lemma BlindStep(b: Block, done: seq<nat>, y: nat, k: nat)
    requires y < |b| && b[y].kind == Plain
    ensures !Dirty(b, done + [y], k) ==> (if Writes(b[y], k) then !Blind(b, y) else !Dirty(b, done, k))
  {
    hide Blind, Writes;
    var d := done + [y];
    if Writes(b[y], k) && Blind(b, y) {
      assert d[|done|] == y && Untouched(b, d, k, |done|);
    } else if !Writes(b[y], k) && Dirty(b, done, k) {
      var q := DirtyWriter(b, done, k);
      assert d[q] == done[q] && Untouched(b, d, k, q);
    }
  }

  lemma BlindNoStore(b: Block, y: nat)
    requires Blind(b, y)
    ensures y < |b| && !b[y].store
  {
  }

  /** One plain step of both runs. */
  lemma AlikePlain(b: Block, sem: Sem, order: seq<nat>, p: nat, s: Machine, t: Machine)
    requires Shape(b) && Good(b, order) && ObservedLed(b) && Local(b, sem) && p < |order| && order[p] < |b|
    requires b[order[p]].kind == Plain
    requires Alike(b, order[..p], s, t) && Local(Blanked(b), Quieted(b, sem))
    ensures Alike(b, order[..p + 1], Step(b, sem, order[p], s), Step(Blanked(b), Quieted(b, sem), order[p], t))
  {
    hide Shape, Good, ObservedLed, Dirty, Reads, Writes, Local, Observed;
    var y := order[p];
    var c, quiet := Blanked(b), Quieted(b, sem);
    StepTotal(b, sem, y, s);
    StepTotal(c, quiet, y, t);
    BlankedFacts(b);
    assert order[..p + 1] == order[..p] + [y];
    if Blind(b, y) {
      BlindNoStore(b, y);
    } else {
      forall k: nat | Reads(b[y], k)
        ensures s.regs[k] == t.regs[k]
      {
        ReadsClean(b, order, p, k);
      }
      SameValues(b, sem, y, s, t);
    }
    forall k: nat
      ensures !Dirty(b, order[..p + 1], k) ==> (if Writes(b[y], k) then !Blind(b, y) else !Dirty(b, order[..p], k))
    {
      BlindStep(b, order[..p], y, k);
    }
  }

  lemma SameValues(b: Block, sem: Sem, y: nat, s: Machine, t: Machine)
    requires Local(b, sem) && y < |b| && Total(s) && Total(t) && SameView(b[y], s, t)
    ensures (forall k: nat :: sem.reg(y, k, s) == sem.reg(y, k, t)) && sem.mem(y, s) == sem.mem(y, t)
  {
    hide SameView, Total;
  }

  /** One step of both runs. */
  lemma AlikeStep(b: Block, sem: Sem, order: seq<nat>, p: nat, s: Machine, t: Machine)
    requires Shape(b) && Good(b, order) && ObservedLed(b) && Local(b, sem) && p < |order| && order[p] < |b|
    requires Alike(b, order[..p], s, t) && Local(Blanked(b), Quieted(b, sem))
    ensures Alike(b, order[..p + 1], Step(b, sem, order[p], s), Step(Blanked(b), Quieted(b, sem), order[p], t))
  {
    var y := order[p];
    if b[y].kind == Plain {
      AlikePlain(b, sem, order, p, s, t);
    } else {
      hide Shape, Good, ObservedLed, Dirty, Local, Observed;
      forall k: nat
        ensures !Dirty(b, order[..p], k)
      {
        NothingDirty(b, order, p, y, k);
      }
      SameMachine(s, t);
      StepTotal(b, sem, y, s);
      BlankedFacts(b);
    }
  }

  lemma SameMachine(s: Machine, t: Machine)
    requires Total(s) && Total(t) && s.mem == t.mem && s.mask == t.mask && forall k: nat :: s.regs[k] == t.regs[k]
    ensures s == t
  {
    assert s.regs == t.regs;
  }

  lemma {:induction false} AlikeRun(b: Block, sem: Sem, order: seq<nat>, p: nat, s: Machine)
    requires Shape(b) && Good(b, order) && ObservedLed(b) && Local(b, sem) && Total(s) && p <= |order|
    requires InBlock(b, order)
    requires Local(Blanked(b), Quieted(b, sem)) && InBlock(Blanked(b), order)
    ensures Alike(b, order[..p], Run(b, sem, order[..p], s), Run(Blanked(b), Quieted(b, sem), order[..p], s))
  {
    hide Shape, Good, ObservedLed, Local, Alike, Run, Step;
    if p == 0 {
      AlikeStart(b, sem, order, s);
    } else {
      AlikeRun(b, sem, order, p - 1, s);
      assert order[..p] == order[..p - 1] + [order[p - 1]];
      RunSnoc(b, sem, order[..p - 1], order[p - 1], s);
      RunSnoc(Blanked(b), Quieted(b, sem), order[..p - 1], order[p - 1], s);
      AlikeStep(b, sem, order, p - 1, Run(b, sem, order[..p - 1], s),
                Run(Blanked(b), Quieted(b, sem), order[..p - 1], s));
    }
  }

  lemma AlikeStart(b: Block, sem: Sem, order: seq<nat>, s: Machine)
    requires Local(b, sem) && Total(s) && Local(Blanked(b), Quieted(b, sem))
    ensures Alike(b, order[..0], Run(b, sem, order[..0], s), Run(Blanked(b), Quieted(b, sem), order[..0], s))
  {
    assert order[..0] == [];
  }

  /** Blanking what cannot be seen changes no final state. */
  lemma BlankedResult(b: Block, sem: Sem, order: seq<nat>, s: Machine)
    requires Shape(b) && Good(b, order) && ObservedLed(b) && Local(b, sem) && Total(s) && InBlock(b, order)
    requires Local(Blanked(b), Quieted(b, sem)) && InBlock(Blanked(b), order)
    ensures Run(b, sem, order, s) == Run(Blanked(b), Quieted(b, sem), order, s)
  {
    hide Shape, Good, ObservedLed, Local, Run, Dirty;
    AlikeRun(b, sem, order, |order|, s);
    assert order[..|order|] == order;
    GoodPartial(b, order);
    forall k: nat
      ensures !Dirty(b, order, k)
    {
      NothingDirty(b, order, |order|, |b|, k);
    }
    SameMachine(Run(b, sem, order, s), Run(Blanked(b), Quieted(b, sem), order, s));
  }

  /** In the blanked block the order keeps every conflicting pair. */
  lemma BlankedKeeps(b: Block, order: seq<nat>)
    requires Shape(b) && Good(b, order) && ObservedLed(b)
    ensures InBlock(Blanked(b), order) && KeepsConflicts(Blanked(b), order)
  {
    hide Shape, Good, ObservedLed, Conflict, Joined, Observed;
    GoodPartial(b, order);
    BlankedFacts(b);
    var c := Blanked(b);
    forall p, q | 0 <= p < q < |order| && order[p] > order[q]
      ensures Independent(c[order[q]], c[order[p]])
    {
      var i, j := order[q], order[p];
      if !PlainPair(b, i, j) || Conflict(c[i], c[j]) {
        if PlainPair(b, i, j) {
          BlankedConflict(b, i, j);
        }
        KeepOrder(b, order, i, j);
      }
    }
  }

  lemma BlankedConflict(b: Block, i: nat, j: nat)
    requires Shape(b) && ObservedLed(b) && PlainPair(b, i, j) && Conflict(Blanked(b)[i], Blanked(b)[j])
    ensures Joined(b, i, j)
  {
    BlankedFacts(b);
    hide Joined, Reads, Writes, Observed, ObservedLed;
    if k: nat :| Writes(b[i], k) && (Reads(b[j], k) || Writes(b[j], k)) {
      WriteFirst(b, k, i, j);
    } else if k: nat :| Reads(b[i], k) && !Blind(b, i) && Writes(b[j], k) {
      Led(b, k, i, j);
    } else if b[i].store {
      StoreFirst(b, i, j);
    } else {
      OneEdge(b, 0, i, j);
    }
  }

  lemma UnmovedGood(b: Block)
    requires Shape(b)
    ensures Good(b, Sequence(|b|))
  {
    var id := Sequence(|b|);
    forall x: nat | x < |b|
      ensures x in id
    {
      assert id[x] == x;
    }
    AllPlaced(|b|, id, |b|);
    hide Required, Shape, Zone;
    forall p, q | 0 <= p < q < |id|
      ensures Zone(b, id[p]) <= Zone(b, id[q]) && !Required(b, id[q], id[p])
    {
      ZoneMonotone(b, p, q);
      if Required(b, q, p) {
        RequiredForward(b, q, p);
      }
    }
  }

  /** If every reader that can be seen is led, every allowed order leaves the same final state. */
  lemma ObservedSame(b: Block, order: seq<nat>)
    requires Shape(b) && ObservedLed(b) && Good(b, order)
    ensures SameResult(b, order)
  {
    hide Shape, Good, ObservedLed, Local, Run, KeepsConflicts, Permutation, Total;
    UnmovedGood(b);
    GoodPartial(b, order);
    GoodPartial(b, Sequence(|b|));
    GoodPermutation(b, order);
    BlankedKeeps(b, order);
    forall sem, s | Local(b, sem) && Total(s)
      ensures Run(b, sem, order, s) == Run(b, sem, Sequence(|b|), s)
    {
      QuietedLocal(b, sem);
      BlankedResult(b, sem, order, s);
      BlankedResult(b, sem, Sequence(|b|), s);
      SameMeaning(Blanked(b), Quieted(b, sem), |b|, order, s);
    }
  }

  // ---- A seen reader that is not led ----

  ghost predicate SeesOne(x: Inst, s: Machine) {
    (exists k: nat :: Reads(x, k) && k in s.regs && s.regs[k] == 1) || ((x.load || x.store) && s.mem == 1)
  }

  ghost predicate SomeOne(s: Machine) {
    exists k: nat :: k in s.regs && s.regs[k] == 1
  }

  ghost predicate HasTwo(s: Machine, k: nat) {
    k in s.regs && s.regs[k] == 2
  }

  /** Writer j leaves 2s.  Reader i leaves 1s if it finds a 2 in k, any other instruction if it finds
      a 1; what is not plain notes a 1 in the mask. */
  ghost function Marking(b: Block, i: nat, j: nat, k: nat): Sem {
    Sem((x: nat, r: nat, s: Machine) =>
          if x == j then 2 else if x == i then (if HasTwo(s, k) then 1 else 0)
          else if x < |b| && SeesOne(b[x], s) then 1 else 0,
        (x: nat, s: Machine) =>
          if x >= |b| || !b[x].store then 0
          else if s.mem == 1 || (x == i && HasTwo(s, k)) || (x != i && SeesOne(b[x], s)) then 1 else 0,
        (x: nat, s: Machine) => if SomeOne(s) then s.(mask := 1) else s)
  }

  lemma MarkingLocal(b: Block, i: nat, j: nat, k: nat)
    requires i < |b| && Reads(b[i], k)
    ensures Local(b, Marking(b, i, j, k))
  {
    var sem := Marking(b, i, j, k);
    forall x, r: nat, s, t | 0 <= x < |b| && Total(s) && Total(t) && SameView(b[x], s, t)
      ensures sem.reg(x, r, s) == sem.reg(x, r, t)
    {
      MarkingSame(b, i, j, k, x, r, s, t);
    }
    forall x, s, t | 0 <= x < |b| && Total(s) && Total(t) && SameView(b[x], s, t)
      ensures sem.mem(x, s) == sem.mem(x, t)
    {
      MarkingSame(b, i, j, k, x, 0, s, t);
    }
    forall x, s | 0 <= x < |b| && Total(s)
      ensures Total(sem.any(x, s))
    {
    }
  }

  lemma MarkingSame(b: Block, i: nat, j: nat, k: nat, x: nat, r: nat, s: Machine, t: Machine)
    requires i < |b| && Reads(b[i], k) && x < |b| && Total(s) && Total(t) && SameView(b[x], s, t)
    ensures var sem := Marking(b, i, j, k); sem.reg(x, r, s) == sem.reg(x, r, t) && sem.mem(x, s) == sem.mem(x, t)
  {
    hide Reads, SeesOne;
    SameOnes(b[x], s, t);
    assert x == i ==> s.regs[k] == t.regs[k];
  }

  lemma SameOnes(x: Inst, s: Machine, t: Machine)
    requires Total(s) && Total(t) && SameView(x, s, t)
    ensures SeesOne(x, s) == SeesOne(x, t)
  {
    hide Reads;
  }

  /** No 1 anywhere, and no 2 before j. */
  ghost predicate Unmarked(s: Machine, j: nat, n: nat) {
    Total(s) && s.mem != 1 && s.mask != 1 && forall r: nat :: s.regs[r] != 1 && (n <= j ==> s.regs[r] != 2)
  }

  lemma UnmarkedStep(b: Block, i: nat, j: nat, k: nat, x: nat, s: Machine)
    requires i < j && x < |b| && Unmarked(s, j, x)
    ensures Unmarked(Step(b, Marking(b, i, j, k), x, s), j, x + 1)
  {
    hide Reads, Writes;
    assert !SeesOne(b[x], s) && !SomeOne(s);
  }

  /** In the old order nothing is ever marked. */
  lemma {:induction false} UnmarkedRun(b: Block, i: nat, j: nat, k: nat, n: nat, s: Machine)
    requires i < j && n <= |b| && Unmarked(s, j, 0) && Local(b, Marking(b, i, j, k)) && Total(s)
    ensures InBlock(b, Sequence(n)) && Unmarked(Run(b, Marking(b, i, j, k), Sequence(n), s), j, n)
  {
    hide Local, Run, Step, Unmarked, Marking;
    var sem := Marking(b, i, j, k);
    if n == 0 {
      assert Sequence(n) == [];
      RunEmpty(b, sem, s);
    } else {
      UnmarkedRun(b, i, j, k, n - 1, s);
      assert Sequence(n) == Sequence(n - 1) + [n - 1];
      RunSnoc(b, sem, Sequence(n - 1), n - 1, s);
      UnmarkedStep(b, i, j, k, n - 1, Run(b, sem, Sequence(n - 1), s));
    }
  }

  lemma RunEmpty(b: Block, sem: Sem, s: Machine)
    requires Total(s) && Local(b, sem)
    ensures Run(b, sem, [], s) == s
  {
  }

  /** What x wrote to k lasts to the end, or an instruction that sees it is still to come. */
  ghost predicate Carries(b: Block, done: seq<nat>, x: nat, k: nat) {
    && x in done && PlainWriter(b, x, k)
    && (Alive(b, x, k, |b|) || exists y: nat :: y !in done && Sees(b, x, k, y))
  }

  /** There is a 1 in the mask, in memory, or where it will be seen. */
  ghost predicate Lit(b: Block, i: nat, done: seq<nat>, s: Machine) {
    && Total(s)
    && (|| s.mask == 1 || s.mem == 1
        || exists x: nat, k: nat :: i <= x && Carries(b, done, x, k) && s.regs[k] == 1)
  }

  /** All seen readers after i are led. */
  ghost predicate LedAbove(b: Block, i: nat) {
    forall k: nat, l: nat, y: nat ::
      l > i && PlainPair(b, l, y) && Reads(b[l], k) && Writes(b[y], k) && Observed(b, l) ==> Joined(b, l, y)
  }

  /** What an instruction just wrote to a key that shows is carried on. */
  lemma CarriesOn(b: Block, order: seq<nat>, p: nat, k: nat)
    requires Shape(b) && Good(b, order) && p < |order| && PlainWriter(b, order[p], k) && Shows(b, order[p], k)
    ensures Carries(b, order[..p + 1], order[p], k)
  {
    hide Shape, Good, Alive, Observed, Reads;
    GoodPartial(b, order);
    var x := order[p];
    PlacedNext(order, p, x);
    if !Alive(b, x, k, |b|) {
      var y: nat :| Sees(b, x, k, y);
      WriterFirst(b, order, k, x, y);
      PlacedBefore(|b|, order, p, x, y);
    }
  }

  /** An instruction that marks everything it writes, and can be seen, keeps the light on. */
  lemma LitBy(b: Block, i: nat, order: seq<nat>, p: nat, s: Machine)
    requires Shape(b) && Good(b, order) && p < |order| && i <= order[p] && Observed(b, order[p]) && Total(s)
    requires order[p] < |b| && (b[order[p]].store ==> s.mem == 1)
    requires forall k: nat :: Writes(b[order[p]], k) ==> s.regs[k] == 1
    ensures Lit(b, i, order[..p + 1], s)
  {
    hide Shape, Good, Alive, Sees, Writes, Carries;
    var y := order[p];
    if !b[y].store {
      var k: nat :| Writes(b[y], k) && Shows(b, y, k);
      assert PlainWriter(b, y, k);
      CarriesOn(b, order, p, k);
    }
  }

  /** Nothing overwrites what is carried before it is seen. */
  lemma NotOverwritten(b: Block, i: nat, order: seq<nat>, p: nat, x: nat, k: nat, y: nat)
    requires Shape(b) && Good(b, order) && LedAbove(b, i) && p < |order| && i <= x && x in order[..p]
    requires PlainWriter(b, x, k)
    requires PlainWriter(b, order[p], k) && (y == |b| || (y !in order[..p] && y != order[p] && Sees(b, x, k, y)))
    requires x < y
    ensures !Alive(b, x, k, y)
  {
    hide Shape, Good, Reads, Writes, Joined, Observed, LedAbove;
    GoodPartial(b, order);
    var w := order[p];
    FreshPlace(|b|, order, p);
    if w < x {
      WriterFirst(b, order, k, w, x);
      PlacedBefore(|b|, order, p, w, x);
    } else if w > y {
      if b[y].kind == Plain {
        Above(b, i, k, y, w);
        KeepOrder(b, order, y, w);
      } else {
        FixedFirst(b, order, y, w);
      }
      PlacedBefore(|b|, order, p, y, w);
    }
  }

  lemma Above(b: Block, i: nat, k: nat, l: nat, y: nat)
    requires LedAbove(b, i) && l > i && l < |b| && y < |b| && Reads(b[l], k) && Writes(b[y], k) && Observed(b, l)
    ensures PlainPair(b, l, y) ==> Joined(b, l, y)
  {
    hide Joined, Observed;
  }

  lemma FreshPlace(n: nat, order: seq<nat>, p: nat)
    requires Partial(n, order) && p < |order|
    ensures order[p] !in order[..p]
  {
  }

  /** A plain step that is neither i nor j keeps the light on. */
  lemma LitPlain(b: Block, i: nat, j: nat, k: nat, order: seq<nat>, p: nat, s: Machine)
    requires Shape(b) && Good(b, order) && LedAbove(b, i) && p < |order| && order[p] < |b| && b[order[p]].kind == Plain
    requires order[p] != i && order[p] != j && Lit(b, i, order[..p], s) && Local(b, Marking(b, i, j, k))
    ensures Lit(b, i, order[..p + 1], Step(b, Marking(b, i, j, k), order[p], s))
  {
    hide Shape, Good, LedAbove, Carries, Reads, Writes, Local;
    var y, sem := order[p], Marking(b, i, j, k);
    StepTotal(b, sem, y, s);
    var t := Step(b, sem, y, s);
    if s.mask != 1 && s.mem != 1 {
      var x: nat, r: nat :| i <= x && Carries(b, order[..p], x, r) && s.regs[r] == 1;
      LitCarried(b, i, j, k, order, p, s, x, r);
    }
  }

  lemma LitCarried(b: Block, i: nat, j: nat, k: nat, order: seq<nat>, p: nat, s: Machine, x: nat, r: nat)
    requires Shape(b) && Good(b, order) && LedAbove(b, i) && p < |order| && order[p] < |b| && b[order[p]].kind == Plain
    requires order[p] != i && order[p] != j && Total(s) && Total(Step(b, Marking(b, i, j, k), order[p], s))
    requires i <= x && Carries(b, order[..p], x, r) && s.regs[r] == 1
    ensures Lit(b, i, order[..p + 1], Step(b, Marking(b, i, j, k), order[p], s))
  {
    hide Shape, Good, LedAbove, Writes, Alive, Observed;
    var y, sem := order[p], Marking(b, i, j, k);
    var t := Step(b, sem, y, s);
    PlacedNext(order, p, x);
    if Alive(b, x, r, |b|) {
      if Writes(b[y], r) {
        NotOverwritten(b, i, order, p, x, r, |b|);
      } else {
        assert Carries(b, order[..p + 1], x, r);
      }
    } else {
      var z: nat :| z !in order[..p] && Sees(b, x, r, z);
      if z == y {
        SeenMarks(b, i, j, k, y, r, s);
        LitBy(b, i, order, p, t);
      } else if Writes(b[y], r) {
        NotOverwritten(b, i, order, p, x, r, z);
      } else {
        PlacedNext(order, p, z);
        assert Carries(b, order[..p + 1], x, r);
      }
    }
  }

  /** An instruction that reads a 1 marks all it writes. */
  lemma SeenMarks(b: Block, i: nat, j: nat, k: nat, y: nat, r: nat, s: Machine)
    requires y < |b| && b[y].kind == Plain && y != i && y != j && Total(s) && Reads(b[y], r) && s.regs[r] == 1
    ensures var t := Step(b, Marking(b, i, j, k), y, s);
            && (b[y].store ==> t.mem == 1) && forall q: nat :: Writes(b[y], q) ==> q in t.regs && t.regs[q] == 1
  {
    hide Writes;
    assert SeesOne(b[y], s);
  }

  lemma LitStep(b: Block, i: nat, j: nat, k: nat, order: seq<nat>, p: nat, s: Machine)
    requires Shape(b) && Good(b, order) && LedAbove(b, i) && p < |order| && order[p] < |b|
    requires order[p] != i && order[p] != j && Lit(b, i, order[..p], s) && Local(b, Marking(b, i, j, k))
    ensures Lit(b, i, order[..p + 1], Step(b, Marking(b, i, j, k), order[p], s))
  {
    if b[order[p]].kind == Plain {
      LitPlain(b, i, j, k, order, p, s);
    } else {
      hide Shape, Good, LedAbove, Carries, Local;
      StepTotal(b, Marking(b, i, j, k), order[p], s);
      if s.mask != 1 && s.mem != 1 {
        var x: nat, r: nat :| i <= x && Carries(b, order[..p], x, r) && s.regs[r] == 1;
        assert SomeOne(s);
      }
    }
  }

  lemma {:induction false} LitRun(b: Block, i: nat, j: nat, k: nat, order: seq<nat>, p: nat, n: nat, s: Machine)
    requires Shape(b) && Good(b, order) && LedAbove(b, i) && InBlock(b, order) && 0 < p < n <= |order| && order[p] == i
    requires order[p - 1] == j
    requires Local(b, Marking(b, i, j, k)) && Total(s)
    requires Lit(b, i, order[..p + 1], Run(b, Marking(b, i, j, k), order[..p + 1], s))
    ensures Lit(b, i, order[..n], Run(b, Marking(b, i, j, k), order[..n], s))
    decreases n
  {
    hide Shape, Good, LedAbove, Local, Lit, Run, Step, Marking;
    if n > p + 1 {
      LitRun(b, i, j, k, order, p, n - 1, s);
      GoodPartial(b, order);
      var sem := Marking(b, i, j, k);
      assert order[..n] == order[..n - 1] + [order[n - 1]];
      RunSnoc(b, sem, order[..n - 1], order[n - 1], s);
      assert order[n - 1] != i && order[n - 1] != j;
      LitStep(b, i, j, k, order, n - 1, Run(b, sem, order[..n - 1], s));
    }
  }

  /** At the end a 1 is there to be seen. */
  lemma LitEnd(b: Block, i: nat, order: seq<nat>, s: Machine)
    requires Good(b, order) && Lit(b, i, order, s)
    ensures s.mask == 1 || s.mem == 1 || exists k: nat :: k in s.regs && s.regs[k] == 1
  {
    hide Good, Alive, Observed;
    GoodPartial(b, order);
    if s.mask != 1 && s.mem != 1 {
      var x: nat, k: nat :| i <= x && Carries(b, order, x, k) && s.regs[k] == 1;
    }
  }

  /** The reader, right after the writer, finds the 2. */
  lemma LitStart(b: Block, i: nat, j: nat, k: nat, order: seq<nat>, p: nat, s: Machine)
    requires Shape(b) && Good(b, order) && InBlock(b, order) && 0 < p < |order| && order[p] == i && order[p - 1] == j
    requires i != j
    requires PlainPair(b, i, j) && Reads(b[i], k) && Writes(b[j], k) && Observed(b, i) && Local(b, Marking(b, i, j, k))
    requires Total(s)
    ensures Lit(b, i, order[..p + 1], Run(b, Marking(b, i, j, k), order[..p + 1], s))
  {
    hide Shape, Good, Local, Lit, Run, Reads, Writes, Observed;
    var sem := Marking(b, i, j, k);
    assert order[..p] == order[..p - 1] + [j];
    RunSnoc(b, sem, order[..p - 1], j, s);
    assert order[..p + 1] == order[..p] + [i];
    RunSnoc(b, sem, order[..p], i, s);
    var u := Run(b, sem, order[..p - 1], s);
    TwoFound(b, i, j, k, u);
    LitBy(b, i, order, p, Run(b, sem, order[..p + 1], s));
  }

  lemma TwoFound(b: Block, i: nat, j: nat, k: nat, u: Machine)
    requires i < |b| && j < |b| && i != j && b[i].kind == Plain && b[j].kind == Plain && Writes(b[j], k) && Total(u)
    requires Local(b, Marking(b, i, j, k))
    ensures var sem := Marking(b, i, j, k);
            Total(Step(b, sem, j, u)) &&
            var t := Step(b, sem, i, Step(b, sem, j, u));
            (b[i].store ==> t.mem == 1) && forall q: nat :: Writes(b[i], q) ==> q in t.regs && t.regs[q] == 1
  {
    hide Local, SeesOne, SomeOne;
    var sem := Marking(b, i, j, k);
    StepTotal(b, sem, j, u);
    var v := Step(b, sem, j, u);
    assert HasTwo(v, k);
    hide Writes;
  }

  /** A seen reader that is not led, with all later ones led, makes a difference. */
  lemma TopDiffers(b: Block, k: nat, i: nat, j: nat)
    requires Shape(b) && PlainPair(b, i, j) && Reads(b[i], k) && Writes(b[j], k) && Observed(b, i) && !Joined(b, i, j)
    requires LedAbove(b, i)
    ensures Good(b, Swapped(b, i, j)) && !SameResult(b, Swapped(b, i, j))
  {
    hide Shape, Good, Joined, Local, Run, Swapped, Observed, LedAbove, Lit, Unmarked, Marking, Reads, Writes;
    var order, sem, s := Swapped(b, i, j), Marking(b, i, j, k), Blank();
    SwappedGood(b, i, j);
    GoodPartial(b, order);
    MarkingLocal(b, i, j, k);
    BlankUnmarked(j);
    UnmarkedRun(b, i, j, k, |b|, s);
    var p := NextTo(b, i, j);
    LitStart(b, i, j, k, order, p, s);
    LitRun(b, i, j, k, order, p, |order|, s);
    assert order[..|order|] == order;
    LitEnd(b, i, order, Run(b, sem, order, s));
    UnmarkedEnd(Run(b, sem, Sequence(|b|), s), j, |b|);
  }

  lemma BlankUnmarked(j: nat)
    ensures Unmarked(Blank(), j, 0) && Total(Blank())
  {
  }

  lemma UnmarkedEnd(s: Machine, j: nat, n: nat)
    requires Unmarked(s, j, n)
    ensures s.mask != 1 && s.mem != 1 && forall k: nat :: k in s.regs ==> s.regs[k] != 1
  {
  }

  lemma {:induction false} UnledDiffers(b: Block, k: nat, i: nat, j: nat)
    requires Shape(b) && PlainPair(b, i, j) && Reads(b[i], k) && Writes(b[j], k) && Observed(b, i) && !Joined(b, i, j)
    ensures exists order :: Good(b, order) && !SameResult(b, order)
    decreases |b| - i
  {
    hide Shape, Good, Joined, SameResult, Observed, Reads, Writes;
    if LedAbove(b, i) {
      TopDiffers(b, k, i, j);
    } else {
      var k': nat, l: nat, y: nat :| l > i && PlainPair(b, l, y) && Reads(b[l], k') && Writes(b[y], k')
          && Observed(b, l) && !Joined(b, l, y);
      UnledDiffers(b, k', l, y);
    }
  }

  /** All the orders that the graph allows leave the same final state, for every local meaning,
      exactly when every reader that can be seen is led to every later writer of its key. */
  lemma AllOrdersSameResult(b: Block)
    requires Shape(b)
    ensures ObservedLed(b) <==> forall order :: Good(b, order) ==> SameResult(b, order)
  {
    hide Shape, Good, Joined, SameResult, Observed, Reads, Writes;
    if ObservedLed(b) {
      forall order | Good(b, order)
        ensures SameResult(b, order)
      {
        ObservedSame(b, order);
      }
    } else {
      var k: nat, i: nat, j: nat :| PlainPair(b, i, j) && Reads(b[i], k) && Writes(b[j], k) && Observed(b, i)
          && !Joined(b, i, j);
      UnledDiffers(b, k, i, j);
    }
  }

  /** A reader that writes nothing, a second reader, and a writer. */
  function Idle(): Block {
    [Inst(Plain, [Use(7)], false, false, 1), Inst(Plain, [Use(7), Def(8)], false, false, 1),
     Inst(Plain, [Def(7)], false, false, 1)]
  }

  lemma IdleEdges(x: nat, y: nat)
    ensures Required(Idle(), x, y) <==> x == 1 && y == 2
  {
    var b := Idle();
    assert forall k :: !Writes(b[0], k) && (Writes(b[1], k) <==> k == 8) && (Writes(b[2], k) <==> k == 7);
    assert forall k :: (Reads(b[0], k) <==> k == 7) && (Reads(b[1], k) <==> k == 7) && !Reads(b[2], k);
    assert forall i :: 0 <= i < 3 ==> !Revisits(b[i]);
    assert forall i: nat, j: nat :: SameEpoch(b, i, j);
    FirstReads(b[2], 7);
    hide Reads, Writes, Revisits, ReadsFirst, SameEpoch;
    assert x == 1 && y == 2 ==> NeedsAnti(b, 7, x, y);
  }

  /** The two conditions differ: nobody can see the first reader, so it may go astray. */
  lemma UnseenReader()
    ensures Shape(Idle()) && ObservedLed(Idle()) && !ReadersLed(Idle())
  {
    var b := Idle();
    assert forall k :: !Writes(b[0], k);
    assert !Observed(b, 0);
    IdleEdges(0, 1);
    IdleEdges(0, 2);
    IdleEdges(1, 2);
    hide Required;
    assert Joined(b, 2, 2);
    assert Joined(b, 1, 2) && !Joined(b, 0, 2);
    assert PlainPair(b, 0, 2) && Reads(b[0], 7) && Writes(b[2], 7);
    hide Joined, Observed;
    forall k: nat, i: nat, j: nat | PlainPair(b, i, j) && Reads(b[i], k) && Writes(b[j], k) && Observed(b, i)
      ensures Joined(b, i, j)
    {
      assert i == 1 && j == 2;
    }
  }
}
