/** What becomes of instructions whose list of successors overflowed: they are pinned to the start of
    the block, and exactly when that is harmless. */
module ScheduleOverflow {
  import opened ScheduleDag
  import opened ScheduleMeaning
  import opened ScheduleOrder
  import ScheduleObserved
  import opened Permutations

  /** The block as the list scheduler treats it: marked instructions are pinned to the start. */
  function Pinned(b: Block, marks: seq<bool>): (c: Block)
    requires |marks| == |b|
    ensures |c| == |b| && forall x :: 0 <= x < |b| ==> c[x] == if marks[x] then b[x].(kind := Pseudo) else b[x]
  {
    seq(|b|, x requires 0 <= x < |b| == |marks| => if marks[x] then b[x].(kind := Pseudo) else b[x])
  }

  /** A marked instruction is no barrier. */
  lemma MarkIsNoBarrier(b: Block, x: nat)
    requires Shape(b) && Overfull(b, x)
    ensures b[x].kind != Barrier
  {
    hide Required, Followers;
    if |Followers(b, x)| > MAX_DEPS {
      Someone(b, x);
    } else {
      var u: nat :| u < |b| && Required(b, u, x) && |Ahead(b, u, x)| >= MAX_DEPS;
      RequiredForward(b, u, x);
    }
  }

  lemma Someone(b: Block, x: nat)
    requires Shape(b) && |Followers(b, x)| > 0 && x < |b|
    ensures b[x].kind != Barrier
  {
    hide Required;
    var y :| y in Followers(b, x);
    RequiredForward(b, x, y);
  }

  lemma {:induction false} PinnedEpoch(b: Block, i: nat)
    requires Shape(b) && i <= |b|
    ensures Epoch(Pinned(b, Marks(b)), i) == Epoch(b, i)
  {
    hide Overfull, Shape;
    if i > 0 {
      PinnedEpoch(b, i - 1);
      if Overfull(b, i - 1) {
        MarkIsNoBarrier(b, i - 1);
      }
    }
  }

  lemma PinnedBarriers(b: Block, barriers: seq<nat>)
    requires Shape(b) && BarrierList(b, |b|, barriers)
    ensures BarrierList(Pinned(b, Marks(b)), |b|, barriers)
  {
    hide Overfull, Shape, Epoch;
    forall i: nat | i <= |b|
      ensures Epoch(Pinned(b, Marks(b)), i) == Epoch(b, i)
    {
      PinnedEpoch(b, i);
    }
    forall x: nat | x < |b| && Overfull(b, x)
      ensures b[x].kind != Barrier
    {
      MarkIsNoBarrier(b, x);
    }
  }

  /** x is pinned to the start, as a pseudo-operation or because it is marked. */
  ghost predicate AtStart(b: Block, x: nat) {
    x < |b| && (Overfull(b, x) || b[x].kind == Pseudo)
  }

  /** A marked instruction is of the first epoch, and waits for nothing that is not pinned as well. */
  ghost predicate Harmless(b: Block) {
    forall y: nat :: y < |b| && Overfull(b, y) && b[y].kind == Plain ==>
      Epoch(b, y) == 0 && forall x: nat :: Required(b, x, y) && x != y ==> AtStart(b, x)
  }

  /** No terminator is marked; one that is would be placed twice. */
  ghost predicate EndsFree(b: Block) {
    forall x: nat :: x < |b| && Overfull(b, x) ==> b[x].kind != Term
  }

  lemma PinnedZone(b: Block, x: nat)
    requires Shape(b) && x < |b|
    ensures Zone(Pinned(b, Marks(b)), x) == if Overfull(b, x) then 0 else Zone(b, x)
    ensures Zone(Pinned(b, Marks(b)), x) == 0 <==> AtStart(b, x)
  {
    hide Overfull, Shape;
    PinnedEpoch(b, x);
    PinnedEpoch(b, |b|);
    hide Epoch;
  }

  // ---- Harmless marks ----

  lemma PairZones(b: Block, u: nat, v: nat)
    requires Shape(b) && EndsFree(b) && Harmless(b) && u < |b| && v < |b| && u != v
    requires var c := Pinned(b, Marks(b));
             Zone(c, u) <= Zone(c, v) && (Zone(c, u) == Zone(c, v) && c[u].kind != Plain ==> u < v)
    ensures Zone(b, u) <= Zone(b, v) && (Zone(b, u) == Zone(b, v) && b[u].kind != Plain ==> u < v)
  {
    hide Required, Epoch, Overfull;
    PinnedZone(b, u);
    PinnedZone(b, v);
    if Overfull(b, u) {
      MarkIsNoBarrier(b, u);
    }
    if Overfull(b, v) {
      MarkIsNoBarrier(b, v);
    }
  }

  lemma PairEdges(b: Block, g: Graph, u: nat, v: nat)
    requires Shape(b) && DagOf(b, g) && Harmless(b) && u < |b| && v < |b| && u != v && b[v].kind == Plain
    requires var c := Pinned(b, Marks(b));
             (c[v].kind == Plain ==> !Edge(g, u, v)) && Zone(c, v) <= Zone(c, u)
             && (Zone(c, u) == Zone(c, v) && c[v].kind != Plain ==> v < u)
    ensures !Required(b, u, v)
  {
    hide Required, Epoch, Zone, Edge, Shape;
    PinnedZone(b, u);
    PinnedZone(b, v);
    if Required(b, u, v) {
      RequiredForward(b, u, v);
    }
  }

  lemma HarmlessGood(b: Block, g: Graph, order: seq<nat>)
    requires Shape(b) && DagOf(b, g) && EndsFree(b) && Harmless(b)
    requires Permutation(|b|, order) && InBlock(b, order) && InBlock(Pinned(b, Marks(b)), order)
    requires FollowsGraph(Pinned(b, Marks(b)), g, order)
    ensures Good(b, order)
  {
    hide Required, Edge, Zone, Shape, DagOf, Harmless;
    forall p, q | 0 <= p < q < |order|
      ensures Zone(b, order[p]) <= Zone(b, order[q])
      ensures Zone(b, order[p]) == Zone(b, order[q]) && b[order[p]].kind != Plain ==> order[p] < order[q]
      ensures b[order[p]].kind == Plain ==> !Required(b, order[q], order[p])
    {
      PairZones(b, order[p], order[q]);
      if b[order[p]].kind == Plain {
        PairEdges(b, g, order[q], order[p]);
      }
    }
  }

  // ---- Others ----

  /** What is pinned comes before what is not. */
  lemma FrontFirst(b: Block, g: Graph, order: seq<nat>, y: nat, x: nat)
    requires Shape(b) && DagOf(b, g) && Permutation(|b|, order) && InBlock(b, order)
    requires InBlock(Pinned(b, Marks(b)), order)
    requires FollowsGraph(Pinned(b, Marks(b)), g, order) && y < |b| && x < |b| && AtStart(b, y) && !AtStart(b, x)
    ensures Before(order, y, x)
  {
    hide Edge, Zone;
    PinnedZone(b, y);
    PinnedZone(b, x);
    assert x in order && y in order;
    var p :| 0 <= p < |order| && order[p] == y;
    var q :| 0 <= q < |order| && order[q] == x;
    assert p != q;
  }

  lemma GoodIsHarmless(b: Block, g: Graph, order: seq<nat>, y: nat)
    requires Shape(b) && DagOf(b, g) && Good(b, order) && InBlock(b, order) && InBlock(Pinned(b, Marks(b)), order)
    requires FollowsGraph(Pinned(b, Marks(b)), g, order) && y < |b| && Overfull(b, y) && b[y].kind == Plain
    ensures Epoch(b, y) == 0
    ensures forall x: nat :: Required(b, x, y) && x != y ==> AtStart(b, x)
  {
    hide Good, DagOf, FollowsGraph, Shape, Required, Epoch, Overfull;
    GoodPermutation(b, order);
    ScheduleObserved.GoodPartial(b, order);
    if Epoch(b, y) != 0 {
      var m := SomeBarrier(b, y);
      BarrierStays(b, m);
      FrontFirst(b, g, order, y, m);
      ScheduleObserved.FixedFirst(b, order, m, y);
    }
    forall x: nat | Required(b, x, y) && x != y
      ensures AtStart(b, x)
    {
      RequiredForward(b, x, y);
      if !AtStart(b, x) {
        FrontFirst(b, g, order, y, x);
        Backward(b, order, x, y);
      }
    }
  }

  lemma BarrierStays(b: Block, m: nat)
    requires Shape(b) && m < |b| && b[m].kind == Barrier
    ensures !AtStart(b, m)
  {
    hide Overfull;
    if Overfull(b, m) {
      MarkIsNoBarrier(b, m);
    }
  }

  lemma Backward(b: Block, order: seq<nat>, x: nat, y: nat)
    requires Good(b, order) && y < |b| && b[y].kind == Plain && Before(order, y, x)
    ensures !Required(b, x, y)
  {
    hide Required;
  }

  lemma {:induction false} SomeBarrier(b: Block, y: nat) returns (m: nat)
    requires y <= |b| && Epoch(b, y) != 0
    ensures m < y && b[m].kind == Barrier
  {
    if b[y - 1].kind == Barrier {
      m := y - 1;
    } else {
      m := SomeBarrier(b, y - 1);
    }
  }

  /** The order keeps to what the block requires exactly when the marks are harmless. */
  lemma GoodIffHarmless(b: Block, g: Graph, order: seq<nat>)
    requires Shape(b) && DagOf(b, g) && EndsFree(b)
    requires Permutation(|b|, order) && InBlock(b, order) && InBlock(Pinned(b, Marks(b)), order)
    requires FollowsGraph(Pinned(b, Marks(b)), g, order)
    ensures Good(b, order) <==> Harmless(b)
  {
    hide Required, Shape, DagOf, Good, FollowsGraph, Permutation, Epoch;
    if Harmless(b) {
      HarmlessGood(b, g, order);
    } else if Good(b, order) {
      forall y: nat | y < |b| && Overfull(b, y) && b[y].kind == Plain
        ensures Epoch(b, y) == 0 && forall x: nat :: Required(b, x, y) && x != y ==> AtStart(b, x)
      {
        GoodIsHarmless(b, g, order, y);
      }
    }
  }
}
