/** count_preds, compute_priorities and the list scheduler of schedule_block. */
module Schedule {
  import FiniteSets
  import opened ScheduleDag
  import opened ScheduleMeaning
  import opened ScheduleOrder
  import opened ScheduleObserved
  import opened ScheduleOverflow
  import opened Permutations
  import ScheduleAccess

  const MAX_BLOCK: nat := 4096
  const DONE: nat := 0xFFFF_FFFF

  // ---- Predecessor counts ----

  /** Instructions not yet placed that y waits for. */
  ghost function Sources(g: Graph, order: seq<nat>, y: nat): set<nat> {
    set x | 0 <= x < |g.succs| && x !in order && Edge(g, x, y)
  }

  ghost predicate Counts(g: Graph, preds: seq<nat>, order: seq<nat>) {
    && |preds| == |g.succs|
    && forall y: nat :: y < |preds| ==> preds[y] == if y in order then DONE else |Sources(g, order, y)|
  }

  /** The sources of y among the first m nodes. */
  ghost function Below(g: Graph, m: nat, y: nat): set<nat> {
    set x | 0 <= x < m && Edge(g, x, y)
  }

  lemma BelowStep(g: Graph, m: nat, y: nat)
    ensures |Below(g, m + 1, y)| == |Below(g, m, y)| + if Edge(g, m, y) then 1 else 0
  {
    assert Below(g, m + 1, y) == Below(g, m, y) + if Edge(g, m, y) then {m} else {};
  }

  method CountPreds(g: Graph, n: nat) returns (preds: seq<nat>)
    requires GraphOk(g, n)
    ensures Counts(g, preds, [])
  {
    preds := seq(n, _ => 0);
    for i := 0 to n
      invariant |preds| == n && forall y: nat :: y < n ==> preds[y] == |Below(g, i, y)|
    {
      hide Below;
      ghost var was := preds;
      for s := 0 to |g.succs[i]|
        invariant |preds| == n
        invariant forall y: nat :: y < n ==> preds[y] == was[y] + if y in g.succs[i][..s] then 1 else 0
      {
        var y := g.succs[i][s];
        assert g.succs[i][..s + 1] == g.succs[i][..s] + [y];
        assert y !in g.succs[i][..s];
        preds := preds[y := preds[y] + 1];
      }
      assert g.succs[i][..|g.succs[i]|] == g.succs[i];
      forall y: nat | y < n
        ensures preds[y] == |Below(g, i + 1, y)|
      {
        BelowStep(g, i, y);
      }
    }
    forall y: nat | y < n
      ensures Below(g, n, y) == Sources(g, [], y)
    {
    }
  }

  // ---- Priorities ----

  ghost predicate Critical(g: Graph, latency: seq<nat>, prio: seq<nat>, i: nat)
    requires i < |g.succs| == |latency| == |prio|
  {
    && (forall y: nat :: Edge(g, i, y) && i < y < |prio| ==> prio[i] >= latency[i] + prio[y])
    && (prio[i] == latency[i] || exists y: nat :: Edge(g, i, y) && i < y < |prio| && prio[i] == latency[i] + prio[y])
  }

  /** compute_priorities: the longest latency path from each instruction to the end of the block. */
  method ComputePriorities(g: Graph, latency: seq<nat>) returns (prio: seq<nat>)
    requires GraphOk(g, |latency|)
    requires forall x: nat, y: nat :: Edge(g, x, y) ==> x <= y
    ensures |prio| == |latency| && forall i :: 0 <= i < |prio| ==> Critical(g, latency, prio, i)
  {
    prio := seq(|latency|, _ => 0);
    var i := |latency|;
    while i > 0
      invariant 0 <= i <= |latency| == |prio|
      invariant forall j :: i <= j < |prio| ==> Critical(g, latency, prio, j)
      invariant forall j :: 0 <= j < i ==> prio[j] == 0
    {
      i := i - 1;
      var best: nat := 0;
      ghost var from: int := -1;
      for s := 0 to |g.succs[i]|
        invariant prio[i] == 0
        invariant forall t :: 0 <= t < s ==> prio[g.succs[i][t]] <= best
        invariant best == 0 || (from > i && Edge(g, i, from) && from < |prio| && prio[from] == best)
      {
        assert Edge(g, i, g.succs[i][s]);
        if prio[g.succs[i][s]] > best {
          best := prio[g.succs[i][s]];
          from := g.succs[i][s];
        }
      }
      ghost var was := prio;
      prio := prio[i := latency[i] + best];
      forall j | i <= j < |prio|
        ensures Critical(g, latency, prio, j)
      {
        if j == i {
          assert forall y: nat :: Edge(g, i, y) && i < y ==> prio[y] == was[y];
        } else {
          KeptCritical(g, latency, was, prio, i, j);
        }
      }
    }
  }

  lemma KeptCritical(g: Graph, latency: seq<nat>, was: seq<nat>, prio: seq<nat>, i: nat, j: nat)
    requires i < j < |g.succs| == |latency| == |prio| == |was| && prio == was[i := prio[i]]
    requires (forall x: nat, y: nat :: Edge(g, x, y) ==> x <= y) && Critical(g, latency, was, j)
    ensures Critical(g, latency, prio, j)
  {
    hide Edge;
    if prio[j] != latency[j] {
      var y: nat :| Edge(g, j, y) && j < y < |was| && was[j] == latency[j] + was[y];
      assert prio[y] == was[y];
    }
  }

  // ---- The order so far ----

  /** Everything a placed plain instruction waits for was placed before it. */
  ghost predicate SourcesFirst(b: Block, g: Graph, order: seq<nat>)
    requires InBlock(b, order)
  {
    forall p, x: nat :: 0 <= p < |order| && b[order[p]].kind == Plain && Edge(g, x, order[p]) ==> x in order[..p]
  }

  ghost predicate Sorted(b: Block, order: seq<nat>)
    requires InBlock(b, order)
  {
    forall p, q :: 0 <= p < q < |order| ==>
      && Zone(b, order[p]) <= Zone(b, order[q])
      && (Zone(b, order[p]) == Zone(b, order[q]) && b[order[p]].kind != Plain ==> order[p] < order[q])
  }

  ghost predicate UpTo(b: Block, order: seq<nat>, zone: nat)
    requires InBlock(b, order)
  {
    forall p :: 0 <= p < |order| ==> Zone(b, order[p]) <= zone
  }

  ghost predicate Placing(b: Block, g: Graph, order: seq<nat>, zone: nat) {
    && |g.succs| == |b| && Partial(|b|, order) && InBlock(b, order)
    && SourcesFirst(b, g, order) && Sorted(b, order) && UpTo(b, order, zone)
  }

  lemma PlaceOne(b: Block, g: Graph, order: seq<nat>, zone: nat, i: nat)
    requires Placing(b, g, order, zone) && i < |b| && i !in order && Zone(b, i) == zone
    requires b[i].kind == Plain ==> Sources(g, order, i) == {}
    requires b[i].kind != Plain ==> forall p :: 0 <= p < |order| ==> Zone(b, order[p]) < zone || order[p] < i
    requires forall p :: 0 <= p < |order| && Zone(b, order[p]) == zone ==> b[order[p]].kind == b[i].kind
    ensures Placing(b, g, order + [i], zone)
  {
    hide Zone, Edge;
    var o := order + [i];
    assert forall p :: 0 <= p < |order| ==> o[p] == order[p];
    forall p, x: nat | 0 <= p < |o| && b[o[p]].kind == Plain && Edge(g, x, o[p])
      ensures x in o[..p]
    {
      assert o[..p] == order[..p];
      if p == |order| {
        assert order[..p] == order;
        EdgeInside(g, x, i);
        assert x !in Sources(g, order, i);
      }
    }
  }

  lemma EdgeInside(g: Graph, x: nat, y: nat)
    requires Edge(g, x, y)
    ensures x < |g.succs|
  {
  }

  lemma Widen(b: Block, g: Graph, order: seq<nat>, zone: nat, next: nat)
    requires Placing(b, g, order, zone) && zone <= next
    ensures Placing(b, g, order, next)
  {
    hide Zone, SourcesFirst, Sorted;
  }

  lemma PlacingFollows(b: Block, g: Graph, order: seq<nat>, zone: nat)
    requires Placing(b, g, order, zone)
    ensures InBlock(b, order) && Partial(|b|, order) && FollowsGraph(b, g, order)
  {
    hide Zone, Edge;
    forall p, q | 0 <= p < q < |order| && b[order[p]].kind == Plain
      ensures !Edge(g, order[q], order[p])
    {
      assert forall r :: 0 <= r < p ==> order[r] != order[q];
      assert order[q] !in order[..p];
    }
  }

  // ---- The choice among ready instructions ----

  /** y is not placed and everything it waits for is. */
  ghost predicate Waits(b: Block, g: Graph, order: seq<nat>, y: nat) {
    y < |b| && y !in order && b[y].kind == Plain && forall x: nat :: Edge(g, x, y) ==> x in order
  }

  /** Each plain instruction had the highest priority among those of its epoch that were ready. */
  ghost predicate Greedy(b: Block, g: Graph, prio: seq<nat>, order: seq<nat>) {
    && |prio| == |b| && InBlock(b, order)
    && (forall p, y: nat ::
          && 0 <= p < |order| && y < |b| && b[order[p]].kind == Plain
          && Waits(b, g, order[..p], y) && Epoch(b, y) == Epoch(b, order[p])
          ==> prio[y] <= prio[order[p]])
  }

  lemma GreedyOne(b: Block, g: Graph, prio: seq<nat>, order: seq<nat>, i: nat)
    requires Greedy(b, g, prio, order) && i < |b|
    requires b[i].kind == Plain ==> forall y: nat :: y < |b| && Waits(b, g, order, y) && Epoch(b, y) == Epoch(b, i) ==>
               prio[y] <= prio[i]
    ensures Greedy(b, g, prio, order + [i])
  {
    hide Waits, Epoch;
    var o := order + [i];
    forall p, y: nat | 0 <= p < |o| && y < |b| && b[o[p]].kind == Plain && Waits(b, g, o[..p], y)
        && Epoch(b, y) == Epoch(b, o[p])
      ensures prio[y] <= prio[o[p]]
    {
      if p < |order| {
        assert o[..p] == order[..p] && o[p] == order[p];
      } else {
        assert o[..p] == order;
      }
    }
  }

  /** The latency and the longest way on from it. */
  ghost predicate LongestFrom(b: Block, prio: seq<nat>, i: nat)
    requires i < |b| == |prio|
  {
    && (forall y: nat :: Required(b, i, y) && i < y < |b| ==> prio[i] >= b[i].latency + prio[y])
    && (|| prio[i] == b[i].latency
        || exists y: nat :: Required(b, i, y) && i < y < |b| && prio[i] == b[i].latency + prio[y])
  }

  /** The order of a list scheduler that prefers the longest way to the end of the block. */
  ghost predicate LongestFirst(b: Block, order: seq<nat>) {
    exists g, prio ::
      && Exact(b, g) && |prio| == |b| && Greedy(b, g, prio, order)
      && (forall i :: 0 <= i < |b| ==> LongestFrom(b, prio, i))
  }

  ghost predicate Exact(b: Block, g: Graph) {
    forall x: nat, y: nat :: Edge(g, x, y) <==> Required(b, x, y)
  }

  // ---- Retiring an instruction ----

  /** One source fewer for the successors of i. */
  lemma SourceGone(g: Graph, order: seq<nat>, i: nat, y: nat)
    requires i !in order
    ensures |Sources(g, order + [i], y)| == |Sources(g, order, y)| - if Edge(g, i, y) then 1 else 0
    ensures Edge(g, i, y) ==> |Sources(g, order, y)| > 0
  {
    var a, c := Sources(g, order, y), Sources(g, order + [i], y);
    assert forall x :: x in order + [i] <==> x in order || x == i;
    if Edge(g, i, y) {
      assert i in a;
      assert c == a - {i};
    } else {
      assert c == a;
    }
  }

  lemma SourcesBound(g: Graph, order: seq<nat>, y: nat)
    ensures |Sources(g, order, y)| <= |g.succs|
  {
    FiniteSets.BelowSize(Sources(g, order, y), |g.succs|);
  }

  /** Counts after the first s successors of i have been told. */
  ghost predicate Telling(g: Graph, preds: seq<nat>, order: seq<nat>, i: nat, s: nat)
    requires i < |g.succs| && s <= |g.succs[i]|
  {
    && |preds| == |g.succs|
    && forall y: nat :: y < |preds| && y != i ==>
         if y in order then preds[y] == DONE
         else preds[y] == |Sources(g, order, y)| - if y in g.succs[i][..s] then 1 else 0
  }

  lemma Told(g: Graph, preds: seq<nat>, order: seq<nat>, i: nat)
    requires i < |g.succs| && i !in order && Telling(g, preds, order, i, |g.succs[i]|) && preds[i] == DONE
    ensures Counts(g, preds, order + [i])
  {
    hide Sources;
    assert g.succs[i][..|g.succs[i]|] == g.succs[i];
    forall y: nat | y < |preds|
      ensures preds[y] == if y in order + [i] then DONE else |Sources(g, order + [i], y)|
    {
      SourceGone(g, order, i, y);
    }
  }

  lemma TellOne(g: Graph, n: nat, order: seq<nat>, i: nat, s: nat)
    requires GraphOk(g, n) && i < n && i !in order && s < |g.succs[i]|
    ensures var y := g.succs[i][s]; y < n && y !in g.succs[i][..s] && |Sources(g, order, y)| > 0
    ensures g.succs[i][..s + 1] == g.succs[i][..s] + [g.succs[i][s]]
  {
    SourceGone(g, order, i, g.succs[i][s]);
  }

  // ---- The ready queue ----

  /** What the scheduler is given. */
  datatype Plan = Plan(b: Block, g: Graph, epoch: seq<nat>, barriers: seq<nat>, prio: seq<nat>, ends: seq<bool>)

  /** What the scheduler relies on: edges run forward between instructions that are no barriers, an
      instruction waits for itself exactly if it revisits a key, terminators come after the plain
      instructions. */
  ghost predicate EdgesOk(b: Block, g: Graph) {
    && GraphOk(g, |b|)
    && (forall x: nat, y: nat :: Edge(g, x, y) ==>
          x <= y < |b| && b[x].kind != Barrier && b[y].kind != Barrier && (x == y ==> Revisits(b[x])))
    && (forall x: nat :: x < |b| && b[x].kind == Plain && Revisits(b[x]) ==> Edge(g, x, x))
    && (forall x, y :: 0 <= x < y < |b| && b[y].kind == Plain ==> b[x].kind != Term)
  }

  /** Terminators are pinned to the end, and besides them only what is pinned to the start as well. */
  ghost predicate EndsOk(p: Plan)
    requires |p.ends| == |p.b|
  {
    forall i :: 0 <= i < |p.b| ==>
        (p.b[i].kind == Term ==> p.ends[i]) && (p.ends[i] ==> p.b[i].kind == Pseudo || p.b[i].kind == Term)
  }

  /** Nothing is pinned to both ends. */
  ghost predicate Sole(p: Plan) {
    |p.ends| == |p.b| && forall i :: 0 <= i < |p.b| ==> (p.ends[i] <==> p.b[i].kind == Term)
  }

  ghost predicate PlanOk(p: Plan) {
    && EdgesOk(p.b, p.g) && BarrierList(p.b, |p.b|, p.barriers)
    && |p.b| <= MAX_BLOCK && |p.epoch| == |p.prio| == |p.ends| == |p.b| && EndsOk(p)
    && forall i :: 0 <= i < |p.b| ==> p.epoch[i] == Epoch(p.b, i)
  }

  ghost predicate Eligible(p: Plan, cur: nat, preds: seq<nat>, y: nat) {
    y < |p.b| && |p.epoch| == |preds| == |p.b| && p.b[y].kind == Plain && p.epoch[y] == cur && preds[y] == 0
  }

  /** The queue holds exactly the plain instructions of the epoch that wait for nothing. */
  ghost predicate ReadyOk(p: Plan, cur: nat, preds: seq<nat>, ready: seq<nat>) {
    Partial(|p.b|, ready) && forall y: nat :: y in ready <==> Eligible(p, cur, preds, y)
  }

  lemma ReadyPush(p: Plan, cur: nat, preds: seq<nat>, ready: seq<nat>, y: nat, v: nat)
    requires ReadyOk(p, cur, preds, ready) && y < |p.b| == |p.epoch| == |preds| && preds[y] > 0
    ensures ReadyOk(p, cur, preds[y := v], if v == 0 && p.b[y].kind == Plain && p.epoch[y] == cur then ready + [y]
                                           else ready)
  {
    assert !Eligible(p, cur, preds, y);
    forall z: nat | z != y
      ensures Eligible(p, cur, preds[y := v], z) == Eligible(p, cur, preds, z)
    {
    }
    hide Eligible;
    assert forall z: nat :: z in ready + [y] <==> z in ready || z == y;
    if v == 0 && p.b[y].kind == Plain && p.epoch[y] == cur {
      assert y !in ready;
      EligibleNow(p, cur, preds[y := v], y);
    } else {
      EligibleNow(p, cur, preds[y := v], y);
    }
  }

  lemma EligibleNow(p: Plan, cur: nat, preds: seq<nat>, y: nat)
    requires y < |p.b| == |p.epoch| == |preds|
    ensures Eligible(p, cur, preds, y) <==> preds[y] == 0 && p.b[y].kind == Plain && p.epoch[y] == cur
  {
  }

  /** Taking entry best out of the queue by moving the last entry into its place. */
  function TakeOut(ready: seq<nat>, best: nat): seq<nat>
    requires best < |ready|
  {
    ready[best := ready[|ready| - 1]][..|ready| - 1]
  }

  lemma ReadyTake(p: Plan, cur: nat, preds: seq<nat>, ready: seq<nat>, best: nat)
    requires ReadyOk(p, cur, preds, ready) && best < |ready|
    ensures var i := ready[best]; Eligible(p, cur, preds, i) && ReadyOk(p, cur, preds[i := DONE], TakeOut(ready, best))
  {
    var i := ready[best];
    var rest := TakeOut(ready, best);
    assert i in ready;
    assert Eligible(p, cur, preds, i);
    forall z: nat
      ensures z in rest <==> z in ready && z != i
    {
      TakeOutIn(p.b, ready, best, z);
    }
    forall z: nat
      ensures Eligible(p, cur, preds[i := DONE], z) <==> Eligible(p, cur, preds, z) && z != i
    {
    }
  }

  lemma TakeOutIn(b: Block, ready: seq<nat>, best: nat, z: nat)
    requires Partial(|b|, ready) && best < |ready|
    ensures z in TakeOut(ready, best) <==> z in ready && z != ready[best]
  {
    var n := |ready| - 1;
    var rest := TakeOut(ready, best);
    assert forall r :: 0 <= r < n ==> rest[r] == if r == best then ready[n] else ready[r];
    if z in ready && z != ready[best] {
      var r :| 0 <= r < |ready| && ready[r] == z;
      assert rest[if r == n then best else r] == z;
    }
  }

  // ---- The scheduler ----

  class Scheduler {
    const p: Plan
    var preds: seq<nat>
    var order: seq<nat>
    var ready: seq<nat>

    constructor (p: Plan, preds: seq<nat>)
      ensures this.p == p && this.preds == preds && order == [] && ready == []
    {
      this.p, this.preds, order, ready := p, preds, [], [];
    }

    ghost predicate Valid(zone: nat)
      reads this
    {
      PlanOk(p) && Placing(p.b, p.g, order, zone) && Counts(p.g, preds, order) && Greedy(p.b, p.g, p.prio, order)
    }

    /** Index of an entry of highest priority, the first such. */
    method PickBest() returns (best: nat)
      requires |ready| > 0 && forall r :: 0 <= r < |ready| ==> ready[r] < |p.prio|
      ensures best < |ready|
      ensures forall r :: 0 <= r < |ready| ==> p.prio[ready[r]] <= p.prio[ready[best]]
      ensures forall r :: 0 <= r < best ==> p.prio[ready[r]] < p.prio[ready[best]]
    {
      best := 0;
      for r := 1 to |ready|
        invariant best < r
        invariant forall q :: 0 <= q < r ==> p.prio[ready[q]] <= p.prio[ready[best]]
        invariant forall q :: 0 <= q < best ==> p.prio[ready[q]] < p.prio[ready[best]]
      {
        if p.prio[ready[r]] > p.prio[ready[best]] {
          best := r;
        }
      }
    }

    /** Tell the successors of a placed instruction; those that now wait for nothing become ready. */
    method Tell(pick: nat, cur: nat)
      requires PlanOk(p) && pick < |p.b| && pick !in order && ReadyOk(p, cur, preds, ready) && PseudoPlaced(p.b, order)
      requires |preds| == |p.b| && preds[pick] == DONE && Telling(p.g, preds, order, pick, 0)
      modifies this`preds, this`ready
      ensures Counts(p.g, preds, order + [pick]) && ReadyOk(p, cur, preds, ready)
    {
      hide Sources, ReadyOk, PlanOk;
      GraphFacts(p);
      for s := 0 to |p.g.succs[pick]|
        modifies this`preds, this`ready
        invariant |preds| == |p.b| && preds[pick] == DONE && Telling(p.g, preds, order, pick, s)
        invariant ReadyOk(p, cur, preds, ready)
      {
        TellOne(p.g, |p.b|, order, pick, s);
        var y := p.g.succs[pick][s];
        SourcesBound(p.g, order, y);
        if preds[y] != DONE {
          ReadyPush(p, cur, preds, ready, y, preds[y] - 1);
          preds := preds[y := preds[y] - 1];
          if preds[y] == 0 && p.b[y].kind != Term && p.b[y].kind != Barrier && p.epoch[y] == cur {
            ready := ready + [y];
          }
        }
      }
      Told(p.g, preds, order, pick);
    }

    /** Place the pseudo-operations first, in their own order. */
    method PlacePinned()
      requires Valid(0) && order == []
      modifies this`preds, this`order
      ensures Valid(0) && PseudoPlaced(p.b, order)
    {
      hide Sources, Placing, Zone, PlanOk, Greedy;
      for i: nat := 0 to |p.b|
        modifies this`preds, this`order
        invariant Valid(0)
        invariant forall q :: 0 <= q < |order| ==> order[q] < i && order[q] < |p.b| && p.b[order[q]].kind == Pseudo
        invariant forall j: nat :: j < i && p.b[j].kind == Pseudo ==> j in order
      {
        GraphFacts(p);
        if p.b[i].kind == Pseudo {
          PinOne(p, order, i);
          SourceGone(p.g, order, i, i);
          assert p.g.succs[i][0..] == p.g.succs[i];
          StartTelling(p.g, preds, order, i);
          for s := 0 to |p.g.succs[i]|
            modifies this`preds
            invariant |preds| == |p.b| && Telling(p.g, preds, order, i, s)
            invariant i in p.g.succs[i][s..] ==> preds[i] > 0
          {
            TellOne(p.g, |p.b|, order, i, s);
            var y := p.g.succs[i][s];
            ForwardEdge(p, i, s);
            assert p.g.succs[i][s..] == [y] + p.g.succs[i][s + 1..];
            TailDistinct(p.g, |p.b|, i, s);
            assert y !in order;
            preds := preds[y := preds[y] - 1];
          }
          preds := preds[i := DONE];
          Told(p.g, preds, order, i);
          GreedyOne(p.b, p.g, p.prio, order, i);
          order := order + [i];
        }
      }
    }

    /** Fill the queue for an epoch. */
    method CollectReady(cur: nat)
      requires PlanOk(p) && ready == [] && |preds| == |p.b|
      modifies this`ready
      ensures ReadyOk(p, cur, preds, ready)
    {
      hide PlanOk;
      GraphFacts(p);
      for i: nat := 0 to |p.b|
        modifies this`ready
        invariant Partial(|p.b|, ready) && forall y: nat :: y in ready <==> y < i && Eligible(p, cur, preds, y)
      {
        if preds[i] == 0 && p.b[i].kind != Pseudo && p.b[i].kind != Term && p.b[i].kind != Barrier
            && p.epoch[i] == cur {
          AppendPartial(|p.b|, ready, i);
          ready := ready + [i];
        }
      }
    }

    /** Place ready instructions until there are none. */
    method Drain(cur: nat)
      requires Valid(2 * cur + 1) && ReadyOk(p, cur, preds, ready) && PseudoPlaced(p.b, order)
      modifies this`preds, this`order, this`ready
      ensures Valid(2 * cur + 1) && ready == [] && ReadyOk(p, cur, preds, [])
      ensures old(order) <= order
    {
      hide Sources, Placing, PlanOk, Counts, ReadyOk, Greedy;
      ghost var was := order;
      PlacingBound(p, order, 2 * cur + 1);
      while |ready| > 0
        modifies this`preds, this`order, this`ready
        invariant Valid(2 * cur + 1) && ReadyOk(p, cur, preds, ready) && was <= order && |order| <= |p.b|
        decreases |p.b| - |order|
      {
        GraphFacts(p);
        ReadyInside(p, cur, preds, ready);
        var best := PickBest();
        var pick := ready[best];
        ReadyTake(p, cur, preds, ready, best);
        PlaceReady(p, preds, order, cur, pick);
        BestFirst(p, preds, order, ready, cur, best);
        ready := ready[best := ready[|ready| - 1]];
        ready := ready[..|ready| - 1];
        preds := preds[pick := DONE];
        MorePlaced(p.b, was, order, pick);
        PlacingBound(p, order + [pick], 2 * cur + 1);
        Tell(pick, cur);
        order := order + [pick];
      }
    }

    /** The barrier that ends the epoch. */
    method PlaceBarrier(cur: nat)
      requires Valid(2 * cur + 1) && cur < |p.barriers|
      modifies this`preds, this`order
      ensures Valid(2 * (cur + 1) + 1) && order == old(order) + [p.barriers[cur]]
    {
      hide Sources, PlanOk, Placing, Greedy;
      var i := p.barriers[cur];
      BarrierPlaced(p, preds, order, cur);
      GreedyOne(p.b, p.g, p.prio, order, i);
      preds := preds[i := DONE];
      order := order + [i];
    }

    /** Terminators last, in their own order. */
    method PlaceTerminators(zone: nat)
      requires Valid(zone) && zone <= 2 * Epoch(p.b, |p.b|) + 1
      modifies this`order
      ensures old(order) <= order && forall i: nat :: i < |p.b| == |p.ends| && p.ends[i] ==> i in order[|old(order)|..]
      ensures InBlock(p.b, order)
      ensures Sole(p) ==> Partial(|p.b|, order) && FollowsGraph(p.b, p.g, order)
      ensures Sole(p) ==> SourcesFirst(p.b, p.g, order) && Greedy(p.b, p.g, p.prio, order)
    {
      hide Sources, PlanOk, Placing, Zone, Epoch, SourcesFirst, FollowsGraph, Greedy, Sole;
      ghost var was := order;
      ghost var top := 2 * Epoch(p.b, |p.b|) + 2;
      TermsStart(p, order, zone);
      PlacingSources(p.b, p.g, order, zone);
      EndsSize(p);
      for i: nat := 0 to |p.b|
        modifies this`order
        invariant was <= order && InBlock(p.b, order) && forall j: nat :: j < i && p.ends[j] ==> j in order[|was|..]
        invariant Sole(p) ==> Ending(p, order, top, i) && Greedy(p.b, p.g, p.prio, order)
      {
        if p.ends[i] {
          if Sole(p) {
            EndingStep(p, order, top, i);
            GreedyOne(p.b, p.g, p.prio, order, i);
          }
          assert (order + [i])[|was|..] == order[|was|..] + [i];
          order := order + [i];
        } else if Sole(p) {
          EndingSkip(p, order, top, i);
        }
      }
      if Sole(p) {
        PlacingFollows(p.b, p.g, order, top);
        PlacingSources(p.b, p.g, order, top);
      }
    }

    /** Everything ready in an epoch. */
    method DrainEpoch(cur: nat)
      requires Valid(2 * cur + 1) && ReadyOk(p, cur, preds, ready) && PseudoPlaced(p.b, order)
      requires NoRevisits(p.b) ==> Placed(p.b, order, cur)
      modifies this
      ensures Valid(2 * cur + 1) && ready == [] && PseudoPlaced(p.b, order)
      ensures NoRevisits(p.b) ==> Placed(p.b, order, cur) && EpochPlaced(p.b, order, cur)
    {
      hide Greedy, Placing, Counts, ReadyOk, PseudoPlaced, Placed, EpochPlaced, NoRevisits, PlanOk;
      ghost var was := order;
      Drain(cur);
      KeepPlaced(p.b, was, order, cur);
      if NoRevisits(p.b) {
        Drained(p, preds, order, cur);
      }
    }

    /** The barrier after an epoch, and the queue of the next one. */
    method NextEpoch(cur: nat)
      requires Valid(2 * cur + 1) && ready == [] && PseudoPlaced(p.b, order) && cur < |p.barriers|
      requires NoRevisits(p.b) ==> Placed(p.b, order, cur) && EpochPlaced(p.b, order, cur)
      modifies this
      ensures Valid(2 * (cur + 1) + 1) && ReadyOk(p, cur + 1, preds, ready) && PseudoPlaced(p.b, order)
      ensures NoRevisits(p.b) ==> Placed(p.b, order, cur + 1)
    {
      hide Greedy, Placing, Counts, ReadyOk, PseudoPlaced, Placed, EpochPlaced, NoRevisits, PlanOk;
      ghost var was := order;
      PlaceBarrier(cur);
      KeepPlaced(p.b, was, order, cur);
      NextPlaced(p, was, order, cur);
      CountsSize(p, preds, order);
      CollectReady(cur + 1);
    }

    /** The whole order: pseudo-operations, then epoch by epoch, then terminators. */
    method ListSchedule()
      requires Valid(0) && order == [] && ready == []
      modifies this
      ensures InBlock(p.b, order)
      ensures Permutation(|p.b|, order) <==> Sole(p) && NoRevisits(p.b)
      ensures Sole(p) ==> FollowsGraph(p.b, p.g, order) && Greedy(p.b, p.g, p.prio, order)
    {
      hide Greedy, Placing, Counts, ReadyOk, PseudoPlaced, SourcesFirst, FollowsGraph, Partial, Permutation, Placed,
           EpochPlaced, InBlock, PlanOk, NoRevisits, Epoch, Sole;
      PlacePinned();
      WidenTo(p, order, 0, 1);
      CountsSize(p, preds, order);
      CollectReady(0);
      PinnedPlaced(p, order);
      var cur := 0;
      BarrierTotal(p);
      while true
        modifies this
        invariant Valid(2 * cur + 1) && ReadyOk(p, cur, preds, ready) && PseudoPlaced(p.b, order)
        invariant cur <= |p.barriers| == Epoch(p.b, |p.b|)
        invariant NoRevisits(p.b) ==> Placed(p.b, order, cur)
        decreases |p.barriers| - cur
      {
        DrainEpoch(cur);
        if cur < |p.barriers| {
          NextEpoch(cur);
          cur := cur + 1;
        } else {
          break;
        }
      }
      ghost var was := order;
      PlaceTerminators(2 * cur + 1);
      if Sole(p) {
        AllOrNot(p, was, order, cur);
      } else {
        PlacedTwice(p, was, order);
      }
    }
  }

  /** No plain instruction looks at a key again after defining it. */
  ghost predicate NoRevisits(b: Block) {
    forall i :: 0 <= i < |b| && b[i].kind == Plain ==> !Revisits(b[i])
  }

  /** Everything before epoch cur is placed. */
  ghost predicate Placed(b: Block, order: seq<nat>, cur: nat) {
    forall i: nat :: i < |b| && b[i].kind != Term && (b[i].kind == Pseudo || Epoch(b, i) < cur) ==> i in order
  }

  ghost predicate EpochPlaced(b: Block, order: seq<nat>, cur: nat) {
    forall i: nat :: i < |b| && b[i].kind == Plain && Epoch(b, i) == cur ==> i in order
  }

  lemma PinnedPlaced(p: Plan, order: seq<nat>)
    requires PseudoPlaced(p.b, order)
    ensures Placed(p.b, order, 0)
  {
  }

  lemma WidenTo(p: Plan, order: seq<nat>, zone: nat, next: nat)
    requires Placing(p.b, p.g, order, zone) && zone <= next
    ensures Placing(p.b, p.g, order, next)
  {
    Widen(p.b, p.g, order, zone, next);
  }

  lemma CountsSize(p: Plan, preds: seq<nat>, order: seq<nat>)
    requires Counts(p.g, preds, order) && PlanOk(p)
    ensures |preds| == |p.b|
  {
  }

  lemma BarrierTotal(p: Plan)
    requires PlanOk(p)
    ensures |p.barriers| == Epoch(p.b, |p.b|)
  {
  }

  lemma ReadyInside(p: Plan, cur: nat, preds: seq<nat>, ready: seq<nat>)
    requires ReadyOk(p, cur, preds, ready)
    ensures forall r :: 0 <= r < |ready| ==> ready[r] < |p.b|
  {
  }

  /** A ready instruction can be placed. */
  lemma PlaceReady(p: Plan, preds: seq<nat>, order: seq<nat>, cur: nat, i: nat)
    requires PlanOk(p) && Placing(p.b, p.g, order, 2 * cur + 1) && Counts(p.g, preds, order)
    requires Eligible(p, cur, preds, i)
    ensures i !in order && Placing(p.b, p.g, order + [i], 2 * cur + 1) && |order| < |p.b|
    ensures |preds| == |p.g.succs| && Telling(p.g, preds[i := DONE], order, i, 0)
  {
    hide EdgesOk, BarrierList;
    assert Sources(p.g, order, i) == {};
    hide Sources;
    forall q | 0 <= q < |order| && Zone(p.b, order[q]) == 2 * cur + 1
      ensures p.b[order[q]].kind == Plain
    {
      OddZone(p.b, order[q]);
    }
    PlaceOne(p.b, p.g, order, 2 * cur + 1, i);
    AppendPartial(|p.b|, order, i);
    assert p.g.succs[i][..0] == [];
  }

  /** The pick has the highest priority of all that wait for nothing. */
  lemma BestFirst(p: Plan, preds: seq<nat>, order: seq<nat>, ready: seq<nat>, cur: nat, best: nat)
    requires PlanOk(p) && Counts(p.g, preds, order) && ReadyOk(p, cur, preds, ready) && Greedy(p.b, p.g, p.prio, order)
    requires best < |ready|
    requires forall r :: 0 <= r < |ready| ==>
               ready[r] < |p.prio| && ready[best] < |p.prio| && p.prio[ready[r]] <= p.prio[ready[best]]
    ensures Greedy(p.b, p.g, p.prio, order + [ready[best]])
  {
    hide Greedy, EdgesOk, Waits, BarrierList;
    var i := ready[best];
    assert i in ready;
    forall y: nat | y < |p.b| && Waits(p.b, p.g, order, y) && Epoch(p.b, y) == Epoch(p.b, i)
      ensures p.prio[y] <= p.prio[i]
    {
      WaitsReady(p, preds, order, cur, y);
      assert y in ready;
    }
    GreedyOne(p.b, p.g, p.prio, order, i);
  }

  lemma WaitsReady(p: Plan, preds: seq<nat>, order: seq<nat>, cur: nat, y: nat)
    requires PlanOk(p) && Counts(p.g, preds, order) && Waits(p.b, p.g, order, y) && Epoch(p.b, y) == cur
    ensures Eligible(p, cur, preds, y)
  {
    hide EdgesOk, BarrierList, Edge;
    SizeOf(p);
    assert Sources(p.g, order, y) == {};
  }

  lemma OddZone(b: Block, i: nat)
    requires i < |b|
    ensures Zone(b, i) % 2 == 1 <==> b[i].kind == Plain
  {
  }

  lemma MorePlaced(b: Block, was: seq<nat>, order: seq<nat>, pick: nat)
    requires was <= order
    ensures was <= order + [pick]
    ensures PseudoPlaced(b, was) ==> PseudoPlaced(b, order) && PseudoPlaced(b, order + [pick])
  {
    assert forall i :: i in was ==> i in order;
  }

  lemma BarrierPlaced(p: Plan, preds: seq<nat>, order: seq<nat>, cur: nat)
    requires PlanOk(p) && Placing(p.b, p.g, order, 2 * cur + 1) && Counts(p.g, preds, order) && cur < |p.barriers|
    ensures var i := p.barriers[cur];
            && i < |p.b| == |preds| && p.b[i].kind == Barrier && Placing(p.b, p.g, order + [i], 2 * (cur + 1) + 1)
            && Counts(p.g, preds[i := DONE], order + [i])
  {
    var i := p.barriers[cur];
    assert Zone(p.b, i) == 2 * cur + 2;
    BarrierAlone(p, i);
    hide PlanOk;
    Widen(p.b, p.g, order, 2 * cur + 1, 2 * cur + 2);
    assert i !in order;
    PlaceOne(p.b, p.g, order, 2 * cur + 2, i);
    Widen(p.b, p.g, order + [i], 2 * cur + 2, 2 * (cur + 1) + 1);
    BarrierCounts(p.g, preds, order, i);
  }

  lemma BarrierAlone(p: Plan, i: nat)
    requires PlanOk(p) && i < |p.b| && p.b[i].kind == Barrier
    ensures |p.g.succs| == |p.b| && forall y: nat :: !Edge(p.g, i, y)
  {
    hide Edge;
    SizeOf(p);
    forall y: nat
      ensures !Edge(p.g, i, y)
    {
      if Edge(p.g, i, y) {
        EdgeForward(p, i, y);
      }
    }
  }

  lemma BarrierCounts(g: Graph, preds: seq<nat>, order: seq<nat>, i: nat)
    requires Counts(g, preds, order) && i < |g.succs| && i !in order && forall y: nat :: !Edge(g, i, y)
    ensures Counts(g, preds[i := DONE], order + [i])
  {
    hide Edge, Sources;
    forall y: nat | y < |preds|
      ensures |Sources(g, order + [i], y)| == |Sources(g, order, y)|
    {
      SourceGone(g, order, i, y);
    }
  }

  lemma TermsStart(p: Plan, order: seq<nat>, zone: nat)
    requires Placing(p.b, p.g, order, zone) && zone <= 2 * Epoch(p.b, |p.b|) + 1
    ensures Ending(p, order, 2 * Epoch(p.b, |p.b|) + 2, 0)
  {
    Widen(p.b, p.g, order, zone, 2 * Epoch(p.b, |p.b|) + 2);
  }

  /** The terminators before i have been placed. */
  ghost predicate Ending(p: Plan, order: seq<nat>, top: nat, i: nat) {
    && Placing(p.b, p.g, order, top)
    && (forall q :: 0 <= q < |order| ==>
          order[q] < |p.b| && (Zone(p.b, order[q]) < top || (p.b[order[q]].kind == Term && order[q] < i)))
  }

  lemma EndsSize(p: Plan)
    requires PlanOk(p)
    ensures |p.ends| == |p.b|
  {
  }

  lemma EndingStep(p: Plan, order: seq<nat>, top: nat, i: nat)
    requires Sole(p) && i < |p.b| && p.ends[i] && top == 2 * Epoch(p.b, |p.b|) + 2 && Ending(p, order, top, i)
    ensures Ending(p, order + [i], top, i + 1) && p.b[i].kind == Term
  {
    TermOne(p, order, i);
    hide Placing, Zone;
  }

  lemma EndingSkip(p: Plan, order: seq<nat>, top: nat, i: nat)
    requires Sole(p) && i < |p.b| && Ending(p, order, top, i)
    ensures Ending(p, order, top, i + 1)
  {
    hide Placing, Zone;
  }

  lemma TermOne(p: Plan, order: seq<nat>, i: nat)
    requires Placing(p.b, p.g, order, 2 * Epoch(p.b, |p.b|) + 2) && i < |p.b| && p.b[i].kind == Term
    requires forall q :: 0 <= q < |order| ==>
               order[q] < |p.b| && (Zone(p.b, order[q]) < 2 * Epoch(p.b, |p.b|) + 2
                                    || (p.b[order[q]].kind == Term && order[q] < i))
    ensures Placing(p.b, p.g, order + [i], 2 * Epoch(p.b, |p.b|) + 2)
  {
    assert i !in order;
    PlaceOne(p.b, p.g, order, 2 * Epoch(p.b, |p.b|) + 2, i);
  }

  lemma PlacingSources(b: Block, g: Graph, order: seq<nat>, zone: nat)
    requires Placing(b, g, order, zone)
    ensures InBlock(b, order) && SourcesFirst(b, g, order)
  {
  }

  lemma KeepPlaced(b: Block, was: seq<nat>, order: seq<nat>, cur: nat)
    requires was <= order
    ensures Placed(b, was, cur) ==> Placed(b, order, cur)
    ensures EpochPlaced(b, was, cur) ==> EpochPlaced(b, order, cur)
    ensures PseudoPlaced(b, was) ==> PseudoPlaced(b, order)
  {
    assert forall i :: i in was ==> i in order;
  }

  /** An empty queue means that the epoch is complete: the first instruction left over would wait
      for nothing. */
  lemma Drained(p: Plan, preds: seq<nat>, order: seq<nat>, cur: nat)
    requires PlanOk(p) && Counts(p.g, preds, order) && ReadyOk(p, cur, preds, []) && NoRevisits(p.b)
    requires Placed(p.b, order, cur)
    ensures EpochPlaced(p.b, order, cur)
  {
    hide Counts, ReadyOk, NoRevisits, Placed;
    forall i: nat | i < |p.b| && p.b[i].kind == Plain && Epoch(p.b, i) == cur
      ensures i in order
    {
      DrainedAt(p, preds, order, cur, i);
    }
  }

  lemma TailDistinct(g: Graph, n: nat, i: nat, s: nat)
    requires GraphOk(g, n) && i < n && s < |g.succs[i]|
    ensures g.succs[i][s] !in g.succs[i][s + 1..]
  {
  }

  ghost predicate PseudoPlaced(b: Block, order: seq<nat>) {
    forall i: nat :: i < |b| && b[i].kind == Pseudo ==> i in order
  }

  lemma PinOne(p: Plan, order: seq<nat>, i: nat)
    requires Placing(p.b, p.g, order, 0) && i < |p.b| && p.b[i].kind == Pseudo
    requires forall q :: 0 <= q < |order| ==> order[q] < i && order[q] < |p.b| && p.b[order[q]].kind == Pseudo
    ensures i !in order && Placing(p.b, p.g, order + [i], 0)
  {
    PlaceOne(p.b, p.g, order, 0, i);
  }

  lemma StartTelling(g: Graph, preds: seq<nat>, order: seq<nat>, i: nat)
    requires Counts(g, preds, order) && i < |g.succs|
    ensures Telling(g, preds, order, i, 0)
  {
  }

  lemma ForwardEdge(p: Plan, i: nat, s: nat)
    requires PlanOk(p) && i < |p.b| == |p.g.succs| && s < |p.g.succs[i]|
    ensures i <= p.g.succs[i][s] < |p.b|
  {
    EdgeForward(p, i, p.g.succs[i][s]);
  }

  lemma GraphFacts(p: Plan)
    requires PlanOk(p)
    ensures GraphOk(p.g, |p.b|) && |p.b| <= MAX_BLOCK && |p.epoch| == |p.prio| == |p.b|
  {
  }

  lemma {:induction false} DrainedAt(p: Plan, preds: seq<nat>, order: seq<nat>, cur: nat, i: nat)
    requires PlanOk(p) && Counts(p.g, preds, order) && ReadyOk(p, cur, preds, []) && NoRevisits(p.b)
    requires Placed(p.b, order, cur)
    requires i < |p.b| && p.b[i].kind == Plain && Epoch(p.b, i) == cur
    ensures i in order
    decreases i
  {
    hide EdgesOk, BarrierList;
    forall x: nat | Edge(p.g, x, i)
      ensures x in order
    {
      SourceOf(p, x, i);
      EpochMonotone(p.b, x, i);
      if p.b[x].kind == Plain && Epoch(p.b, x) == cur {
        DrainedAt(p, preds, order, cur, x);
      }
    }
    GraphFacts(p);
    SizeOf(p);
    assert Sources(p.g, order, i) == {};
    assert !Eligible(p, cur, preds, i);
  }

  lemma SizeOf(p: Plan)
    requires PlanOk(p)
    ensures |p.g.succs| == |p.b|
  {
  }

  lemma EdgeForward(p: Plan, x: nat, y: nat)
    requires PlanOk(p) && Edge(p.g, x, y)
    ensures x <= y < |p.b| && p.b[x].kind != Barrier && p.b[y].kind != Barrier && (x == y ==> Revisits(p.b[x]))
  {
    hide Edge, Revisits;
  }

  /** What a plain instruction waits for comes earlier and is no barrier or terminator. */
  lemma SourceOf(p: Plan, x: nat, i: nat)
    requires PlanOk(p) && NoRevisits(p.b) && i < |p.b| && p.b[i].kind == Plain && Edge(p.g, x, i)
    ensures x < i && (p.b[x].kind == Pseudo || p.b[x].kind == Plain)
  {
    EdgeForward(p, x, i);
  }

  lemma NextPlaced(p: Plan, was: seq<nat>, order: seq<nat>, cur: nat)
    requires PlanOk(p) && cur < |p.barriers| && order == was + [p.barriers[cur]]
    ensures Placed(p.b, was, cur) && EpochPlaced(p.b, was, cur) ==> Placed(p.b, order, cur + 1)
  {
    assert forall i :: i in was ==> i in order;
    assert p.barriers[cur] in order;
  }

  /** The order is complete exactly when no plain instruction waits for itself. */
  lemma AllOrNot(p: Plan, was: seq<nat>, order: seq<nat>, cur: nat)
    requires PlanOk(p) && cur == |p.barriers| && was <= order
    requires Partial(|p.b|, order) && InBlock(p.b, order) && SourcesFirst(p.b, p.g, order)
    requires forall i: nat :: i < |p.b| == |p.ends| && p.ends[i] ==> i in order[|was|..]
    requires NoRevisits(p.b) ==> Placed(p.b, was, cur) && EpochPlaced(p.b, was, cur)
    ensures Permutation(|p.b|, order) <==> NoRevisits(p.b)
  {
    if NoRevisits(p.b) {
      BarrierTotal(p);
      assert forall x :: x in order[|was|..] ==> x in order;
      EndsAreTerms(p);
      forall i: nat | i < |p.b|
        ensures i in order
      {
        EpochOf(p.b, i);
        assert forall x :: x in was ==> x in order;
      }
      AllPlaced(|p.b|, order, |p.b|);
    } else {
      var i :| 0 <= i < |p.b| && p.b[i].kind == Plain && Revisits(p.b[i]);
      SelfWait(p, i);
      NeverPlaced(p.b, p.g, order, i);
    }
  }

  lemma EndsAreTerms(p: Plan)
    requires PlanOk(p)
    ensures |p.ends| == |p.b| && EndsOk(p)
  {
  }

  /** What is pinned to both ends is placed twice. */
  lemma PlacedTwice(p: Plan, was: seq<nat>, order: seq<nat>)
    requires PlanOk(p) && !Sole(p) && was <= order && PseudoPlaced(p.b, was)
    requires forall i: nat :: i < |p.b| == |p.ends| && p.ends[i] ==> i in order[|was|..]
    ensures !Permutation(|p.b|, order)
  {
    hide PlanOk;
    EndsAreTerms(p);
    var i: nat :| i < |p.b| && p.ends[i] && p.b[i].kind != Term;
    assert i in was;
    var u :| 0 <= u < |was| && was[u] == i;
    var v :| 0 <= v < |order| - |was| && order[|was|..][v] == i;
    assert order[u] == i && order[|was| + v] == i;
  }

  lemma EpochOf(b: Block, i: nat)
    requires i < |b|
    ensures Epoch(b, i) <= Epoch(b, |b|) && (b[i].kind == Barrier ==> Epoch(b, i) < Epoch(b, |b|))
  {
    EpochMonotone(b, i + 1, |b|);
  }

  lemma NeverPlaced(b: Block, g: Graph, order: seq<nat>, i: nat)
    requires Partial(|b|, order) && InBlock(b, order) && SourcesFirst(b, g, order) && i < |b| && b[i].kind == Plain
    requires Edge(g, i, i)
    ensures i !in order
  {
    hide Edge;
    forall q | 0 <= q < |order|
      ensures order[q] != i
    {
      assert i in order[..q] || order[q] != i;
    }
  }

  lemma SelfWait(p: Plan, i: nat)
    requires PlanOk(p) && i < |p.b| && p.b[i].kind == Plain && Revisits(p.b[i])
    ensures Edge(p.g, i, i)
  {
    hide Revisits, Edge;
  }

  lemma PlacingBound(p: Plan, order: seq<nat>, zone: nat)
    requires Placing(p.b, p.g, order, zone)
    ensures |order| <= |p.b|
  {
    Pigeonhole(|p.b|, order);
  }

  // ---- The block ----

  /** A block is left alone, or there is an order, with or without some instruction having had more
      successors than its list holds. */
  datatype Outcome = NotWorth | Overflowed(order: seq<nat>) | Scheduled(order: seq<nat>)

  /** No unmarked plain instruction looks at a key again after defining it. */
  ghost predicate UnmarkedNoRevisits(b: Block) {
    forall i: nat :: i < |b| && b[i].kind == Plain && !Overfull(b, i) ==> !Revisits(b[i])
  }

  /** What is pinned to the start comes before what is not. */
  ghost predicate StartFirst(b: Block, order: seq<nat>) {
    forall x: nat, y: nat :: x < |b| && y < |b| && AtStart(b, y) && !AtStart(b, x) ==> Before(order, y, x)
  }

  /** The scheduling part of schedule_block, on a block whose waits have been taken out.  The lists of
      successors overflow exactly when some instruction has too many followers.
      Without overflow no instruction is lost or doubled exactly when no plain instruction revisits a
      key; then the order is one the requirements allow, chosen by longest way to the end.
      With overflow no terminator may be marked either, and the order is one the requirements allow
      exactly when the marks, which the block determines, are harmless.
      An allowed order leaves the final state of the old order if every reader that can be seen is led
      to the later writers, and runs like it throughout if all readers are. */
  method ScheduleBlock(b: Block) returns (r: Outcome)
    requires Shape(b)
    ensures r.NotWorth? <==> |b| <= 1 || |b| > MAX_BLOCK || Epoch(b, |b|) > MAX_BARRIERS
    ensures r.Overflowed? <==> !r.NotWorth? && TooMany(b)
    ensures !r.NotWorth? ==> InBlock(b, r.order)
    ensures r.Scheduled? ==> (Permutation(|b|, r.order) <==> NoRevisits(b)) && LongestFirst(b, r.order)
    ensures r.Scheduled? && NoRevisits(b) ==> Good(b, r.order)
    ensures r.Overflowed? ==> (Permutation(|b|, r.order) <==> EndsFree(b) && UnmarkedNoRevisits(b))
    ensures r.Overflowed? && Permutation(|b|, r.order) ==> StartFirst(b, r.order) && (Good(b, r.order) <==> Harmless(b))
    ensures !r.NotWorth? && Good(b, r.order) && ObservedLed(b) ==> SameResult(b, r.order)
    ensures !r.NotWorth? && Good(b, r.order) && ReadersLed(b) ==> SameRun(b, r.order)
  {
    hide Shape, DagOf, BarrierList, SameRun, SameResult, ReadersLed, ObservedLed, NoRevisits, UnmarkedNoRevisits,
         Permutation, Good, FollowsGraph, InBlock, Placing, Counts, Epoch, Partial, TooMany, Greedy, LongestFirst,
         Harmless, EndsFree, PlanOk, Sole, Overfull, StartFirst;
    if |b| <= 1 || |b| > MAX_BLOCK {
      return NotWorth;
    }
    var ok, g, epoch, barriers := BuildDag(b);
    if !ok {
      return NotWorth;
    }
    DagFacts(b, g);
    var preds := CountPreds(g, |b|);
    var prio := ComputePriorities(g, Latencies(b));
    var ends := EndsOf(b);
    var p := Plan(Pinned(b, g.over), g, epoch, barriers, prio, ends);
    PlanIsOk(b, g, p);
    var sch := new Scheduler(p, preds);
    NothingPlaced(p);
    sch.ListSchedule();
    OrderFacts(b, g, p, sch.order);
    if true in g.over {
      r := Overflowed(sch.order);
    } else {
      r := Scheduled(sch.order);
      NoMarks(b, g, p, sch.order);
    }
    AllOrdersSameResult(b);
    AllOrdersRunAlike(b);
  }

  function EndsOf(b: Block): (ends: seq<bool>)
    ensures |ends| == |b| && forall i :: 0 <= i < |b| ==> (ends[i] <==> b[i].kind == Term)
  {
    seq(|b|, i requires 0 <= i < |b| => b[i].kind == Term)
  }

  lemma PinnedEdges(b: Block, g: Graph)
    requires Shape(b) && DagOf(b, g) && g.over == Marks(b)
    ensures EdgesOk(Pinned(b, Marks(b)), g)
  {
    hide Required, Linked, Edge, Revisits, Overfull;
    var c := Pinned(b, Marks(b));
    forall x: nat, y: nat | Edge(g, x, y)
      ensures x <= y < |c| && c[x].kind != Barrier && c[y].kind != Barrier && (x == y ==> Revisits(c[x]))
    {
      RequiredForward(b, x, y);
      SameRevisits(b[x], c[x]);
    }
    forall x: nat | x < |c| && c[x].kind == Plain && Revisits(c[x])
      ensures Edge(g, x, x)
    {
      SameRevisits(b[x], c[x]);
      SelfRequired(b, g, x);
    }
  }

  lemma SelfRequired(b: Block, g: Graph, x: nat)
    requires DagOf(b, g) && x < |b| == |g.over| && b[x].kind == Plain && Revisits(b[x]) && !g.over[x]
    ensures Edge(g, x, x)
  {
    assert Required(b, x, x);
    hide Required, Revisits;
    assert Linked(g, x, x);
  }

  lemma SameRevisits(x: Inst, y: Inst)
    requires x.acc == y.acc
    ensures Revisits(x) <==> Revisits(y)
  {
  }

  lemma PlanIsOk(b: Block, g: Graph, p: Plan)
    requires Shape(b) && DagOf(b, g) && BarrierList(b, |b|, p.barriers) && |b| <= MAX_BLOCK && g.over == Marks(b)
    requires p.b == Pinned(b, g.over) && p.g == g && |p.epoch| == |p.prio| == |b| && p.ends == EndsOf(b)
    requires forall i :: 0 <= i < |b| ==> p.epoch[i] == Epoch(b, i)
    ensures PlanOk(p)
    ensures Sole(p) <==> EndsFree(b)
    ensures NoRevisits(p.b) <==> UnmarkedNoRevisits(b)
  {
    hide Shape, DagOf, BarrierList, EdgesOk, Revisits, Epoch, Overfull;
    PinnedEdges(b, g);
    PinnedBarriers(b, p.barriers);
    forall i: nat | i < |b|
      ensures Epoch(p.b, i) == Epoch(b, i) && (Revisits(p.b[i]) <==> Revisits(b[i]))
    {
      PinnedEpoch(b, i);
      SameRevisits(b[i], p.b[i]);
    }
  }

  lemma OrderFacts(b: Block, g: Graph, p: Plan, order: seq<nat>)
    requires Shape(b) && DagOf(b, g) && g.over == Marks(b) && p.b == Pinned(b, g.over) && p.g == g
    requires Sole(p) <==> EndsFree(b)
    requires Permutation(|p.b|, order) ==> Sole(p)
    requires InBlock(p.b, order)
    requires Sole(p) ==> FollowsGraph(p.b, p.g, order)
    ensures InBlock(b, order)
    ensures Permutation(|b|, order) ==> StartFirst(b, order) && (Good(b, order) <==> Harmless(b))
    ensures Good(b, order) ==> Permutation(|b|, order)
  {
    hide Shape, DagOf, Sole, EndsFree, Good, FollowsGraph, Harmless, Permutation, Overfull, Before, AtStart;
    SameBlock(b, order);
    if Permutation(|b|, order) {
      GoodIffHarmless(b, g, order);
      forall x: nat, y: nat | x < |b| && y < |b| && AtStart(b, y) && !AtStart(b, x)
        ensures Before(order, y, x)
      {
        FrontFirst(b, g, order, y, x);
      }
    }
    if Good(b, order) {
      GoodPermutation(b, order);
    }
  }

  lemma SameBlock(b: Block, order: seq<nat>)
    requires InBlock(Pinned(b, Marks(b)), order)
    ensures InBlock(b, order)
  {
  }

  /** Without marks nothing is pinned. */
  lemma NoMarks(b: Block, g: Graph, p: Plan, order: seq<nat>)
    requires DagOf(b, g) && true !in g.over && g.over == Marks(b) && p.b == Pinned(b, g.over) && p.g == g
    requires |p.prio| == |b| == |g.succs|
    requires Greedy(p.b, p.g, p.prio, order) || !EndsFree(b)
    requires forall i :: 0 <= i < |b| ==> Critical(g, Latencies(b), p.prio, i)
    ensures EndsFree(b) && Harmless(b) && (UnmarkedNoRevisits(b) <==> NoRevisits(b))
    ensures LongestFirst(b, order)
  {
    hide Greedy, Required, Critical, Revisits, DagOf, Epoch, Overfull;
    forall x: nat | x < |b|
      ensures !Overfull(b, x)
    {
      assert !g.over[x];
    }
    assert p.b == b;
    ByPriority(b, g, p.prio, order);
  }

  function Latencies(b: Block): (l: seq<nat>)
    ensures |l| == |b| && forall i :: 0 <= i < |b| ==> l[i] == b[i].latency
  {
    seq(|b|, i requires 0 <= i < |b| => b[i].latency)
  }

  lemma ByPriority(b: Block, g: Graph, prio: seq<nat>, order: seq<nat>)
    requires DagOf(b, g) && true !in g.over && |prio| == |b| == |g.succs| && Greedy(b, g, prio, order)
    requires forall i :: 0 <= i < |b| ==> Critical(g, Latencies(b), prio, i)
    ensures LongestFirst(b, order)
  {
    hide Greedy, Required, Edge, DagOf;
    DagExact(b, g);
    assert Exact(b, g);
    forall i: nat | i < |b|
      ensures LongestFrom(b, prio, i)
    {
      assert Critical(g, Latencies(b), prio, i);
    }
  }

  lemma DagFacts(b: Block, g: Graph)
    requires DagOf(b, g) && Shape(b)
    ensures GraphOk(g, |b|) && |g.succs| == |g.over| == |b| && forall x: nat, y: nat :: Edge(g, x, y) ==> x <= y
  {
    hide Required, Edge, Linked;
    forall x: nat, y: nat | Edge(g, x, y)
      ensures x <= y
    {
      RequiredForward(b, x, y);
    }
  }

  lemma NothingPlaced(p: Plan)
    requires GraphOk(p.g, |p.b|) && |p.prio| == |p.b|
    ensures Placing(p.b, p.g, [], 0) && Greedy(p.b, p.g, p.prio, []) && InBlock(p.b, [])
  {
  }

  // ---- A reader that is not led to the writer ----

  /** Two readers of key 7 and a load that overwrites it. */
  function Readers(): Block {
    [Inst(Plain, [Use(7), Def(9)], false, false, 1), Inst(Plain, [Use(7), Def(8)], false, false, 1),
     Inst(Plain, [Def(7)], true, false, 80)]
  }

  lemma ReadersAccess()
    ensures var b := Readers();
            && (forall k ::
                  (Writes(b[0], k) <==> k == 9) && (Writes(b[1], k) <==> k == 8) && (Writes(b[2], k) <==> k == 7))
            && (forall k :: (Reads(b[0], k) <==> k == 7) && (Reads(b[1], k) <==> k == 7) && !Reads(b[2], k))
            && (forall i :: 0 <= i < 3 ==> !Revisits(b[i]))
  {
  }

  /** The only edge runs from the second reader. */
  lemma ReadersEdges(x: nat, y: nat)
    ensures Required(Readers(), x, y) <==> x == 1 && y == 2
  {
    var b := Readers();
    ReadersAccess();
    FirstReads(b[2], 7);
    assert forall i: nat, j: nat :: SameEpoch(b, i, j);
    hide Reads, Writes, Revisits, ReadsFirst, SameEpoch;
    assert forall k: nat :: !NeedsFlow(b, k, x, y);
    assert forall k: nat :: NeedsAnti(b, k, x, y) ==> x == 1 && y == 2;
    assert x == 1 && y == 2 ==> NeedsAnti(b, 7, x, y);
    assert !NeedsMemory(b, x, y);
  }

  lemma ReadersShape()
    ensures var b := Readers();
            Shape(b) && NoRevisits(b) && Epoch(b, 3) == 0 && !TooMany(b)
  {
    var b := Readers();
    ReadersAccess();
    ShortBlock(b);
    hide Required, Revisits, TooMany;
  }

  lemma ReadersPriorities(prio: seq<nat>)
    requires |prio| == 3 && forall i :: 0 <= i < 3 ==> LongestFrom(Readers(), prio, i)
    ensures prio == [1, 81, 80]
  {
    var b := Readers();
    forall x: nat, y: nat
      ensures Required(b, x, y) <==> x == 1 && y == 2
    {
      ReadersEdges(x, y);
    }
    hide Required;
    assert LongestFrom(b, prio, 2) && LongestFrom(b, prio, 1) && LongestFrom(b, prio, 0);
  }

  /** The scheduler takes the second reader, then the load, then the first reader. */
  lemma ReadersOrder(order: seq<nat>)
    requires Permutation(3, order) && LongestFirst(Readers(), order)
    ensures order == [1, 2, 0]
  {
    var b := Readers();
    var g, prio :| Exact(b, g) && |prio| == |b| && (forall i :: 0 <= i < |b| ==> LongestFrom(b, prio, i))
        && Greedy(b, g, prio, order);
    ReadersPriorities(prio);
    hide LongestFrom;
    forall x: nat, y: nat
      ensures Required(b, x, y) <==> x == 1 && y == 2
    {
      ReadersEdges(x, y);
    }
    hide Required, Edge;
    forall i: nat | i < 3
      ensures Epoch(b, i) == 0
    {
      EpochMonotone(b, i, 3);
      ReadersShape();
    }
    hide Epoch;
    assert Waits(b, g, order[..0], 1);
    assert order[0] == 1;
    assert Waits(b, g, order[..1], 2);
    assert order[1] == 2;
  }

  /** The first reader copies what it reads, the others write 5. */
  ghost function CopyFirst(): Sem {
    Sem((i: nat, k: nat, s: Machine) => if i == 0 && 7 in s.regs then s.regs[7] else 5,
        (i: nat, s: Machine) => 0, (i: nat, s: Machine) => s)
  }

  lemma ReadersStep(i: nat, s: Machine)
    requires i < 3 && Total(s)
    ensures Local(Readers(), CopyFirst()) && Total(Step(Readers(), CopyFirst(), i, s))
    ensures var t := Step(Readers(), CopyFirst(), i, s);
            && t.regs[7] == (if i == 2 then 5 else s.regs[7])
            && t.regs[9] == (if i == 0 then s.regs[7] else s.regs[9])
  {
    ReadersAccess();
    ReadersLocal();
    hide Reads, Writes;
  }

  lemma ReadersLocal()
    ensures Local(Readers(), CopyFirst())
  {
    var b, sem := Readers(), CopyFirst();
    ReadersAccess();
    assert Reads(b[0], 7);
    hide Writes, Reads;
    forall i, k: nat, s, t | 0 <= i < |b| && Total(s) && Total(t) && SameView(b[i], s, t)
      ensures sem.reg(i, k, s) == sem.reg(i, k, t)
    {
      if i == 0 {
        assert s.regs[7] == t.regs[7];
      }
    }
  }

  lemma ReadersRun(x: nat, y: nat, z: nat, s: Machine)
    requires x < 3 && y < 3 && z < 3 && Total(s) && Local(Readers(), CopyFirst())
    ensures InBlock(Readers(), [x, y, z]) && Total(Step(Readers(), CopyFirst(), x, s))
    ensures Total(Step(Readers(), CopyFirst(), y, Step(Readers(), CopyFirst(), x, s)))
    ensures Run(Readers(), CopyFirst(), [x, y, z], s) ==
            Step(Readers(), CopyFirst(), z, Step(Readers(), CopyFirst(), y, Step(Readers(), CopyFirst(), x, s)))
  {
    var b, sem := Readers(), CopyFirst();
    hide Local, Step, Total;
    RunSnoc(b, sem, [], x, s);
    RunSnoc(b, sem, [x], y, s);
    RunSnoc(b, sem, [x, y], z, s);
    assert [] + [x] == [x] && [x] + [y] == [x, y] && [x, y] + [z] == [x, y, z];
    assert Run(b, sem, [], s) == s;
  }

  lemma ReadersOld(s: Machine)
    requires Total(s) && Local(Readers(), CopyFirst())
    ensures InBlock(Readers(), [0, 1, 2]) && Run(Readers(), CopyFirst(), [0, 1, 2], s).regs[9] == s.regs[7]
  {
    hide Local, Step, Run, Total;
    var b, sem := Readers(), CopyFirst();
    ReadersRun(0, 1, 2, s);
    ReadersStep(0, s);
    ReadersStep(1, Step(b, sem, 0, s));
    ReadersStep(2, Step(b, sem, 1, Step(b, sem, 0, s)));
  }

  lemma ReadersNew(s: Machine)
    requires Total(s) && Local(Readers(), CopyFirst())
    ensures InBlock(Readers(), [1, 2, 0]) && Run(Readers(), CopyFirst(), [1, 2, 0], s).regs[9] == 5
  {
    hide Local, Step, Run, Total;
    var b, sem := Readers(), CopyFirst();
    ReadersRun(1, 2, 0, s);
    ReadersStep(1, s);
    ReadersStep(2, Step(b, sem, 1, s));
    ReadersStep(0, Step(b, sem, 2, Step(b, sem, 1, s)));
  }

  /** In that order the first reader copies the loaded value. */
  lemma ReadersDiffer()
    ensures !SameResult(Readers(), [1, 2, 0])
  {
    hide Local, Run;
    var s := Blank();
    ReadersLocal();
    ReadersOld(s);
    ReadersNew(s);
    assert Sequence(3) == [0, 1, 2];
  }

  /** Without the condition on readers the scheduler changes what the block computes: here it moves
      the first reader behind the load. */
  method TwoReaders() returns (r: Outcome)
    ensures r == Scheduled([1, 2, 0]) && !SameResult(Readers(), [1, 2, 0]) && NoRevisits(Readers())
    ensures !ObservedLed(Readers())
  {
    hide LongestFirst, SameResult, Good, Permutation, NoRevisits, ReadersLed, ObservedLed, TooMany, Epoch, SameRun;
    ReadersShape();
    r := ScheduleBlock(Readers());
    ReadersOrder(r.order);
    ReadersDiffer();
  }

  // ---- A lost instruction ----

  /** The accesses of `s_add_u32 v65534, v1, v2` and an instruction after it. */
  function Adding(): Block {
    var add := ScheduleAccess.MInst(ScheduleAccess.ScalarAlu, [ScheduleAccess.Vreg(65534)],
                                    [ScheduleAccess.Vreg(1), ScheduleAccess.Vreg(2)]);
    [Inst(Plain, ScheduleAccess.Accesses(add), false, false, 1), Inst(Plain, [Use(3), Def(4)], false, false, 1)]
  }

  /** Virtual register 65534 shares its key with SCC, so the addition waits for itself. */
  method LosesInstruction() returns (r: Outcome)
    ensures r.Scheduled? && !Permutation(2, r.order)
  {
    ScheduleAccess.LastVirtualRegister();
    hide ScheduleAccess.Accesses, Revisits, TooMany, LongestFirst, Good, SameRun, SameResult, Permutation;
    var b := Adding();
    assert Shape(b) && Epoch(b, 2) == 0 && Revisits(b[0]);
    ShortBlock(b);
    r := ScheduleBlock(b);
  }

  // ---- A store hoisted over its operand ----

  /** A definition, a store that reads it, and 33 loads. */
  function StoreThenLoads(): (b: Block)
    ensures |b| == 35 && b[0] == Inst(Plain, [Def(1)], false, false, 1) && b[1] == Inst(Plain, [Use(1)], false, true, 1)
    ensures forall i :: 2 <= i < 35 ==> b[i] == Inst(Plain, [Def(i)], true, false, 80)
  {
    [Inst(Plain, [Def(1)], false, false, 1), Inst(Plain, [Use(1)], false, true, 1)]
    + seq(33, i requires 0 <= i < 33 => Inst(Plain, [Def(i + 2)], true, false, 80))
  }

  lemma {:induction false} NoBarriers(b: Block, i: nat)
    requires i <= |b| && forall x :: 0 <= x < |b| ==> b[x].kind == Plain
    ensures Epoch(b, i) == 0
  {
    if i > 0 {
      NoBarriers(b, i - 1);
    }
  }

  /** Every load follows the store. */
  lemma LoadsFollow()
    ensures |Followers(StoreThenLoads(), 1)| > MAX_DEPS
  {
    var b := StoreThenLoads();
    forall i: nat | 2 <= i < 35
      ensures i in Followers(b, 1)
    {
      assert NeedsMemory(b, 1, i);
    }
    hide Followers;
    DistinctWithin(seq(33, i => i + 2), Followers(b, 1));
  }

  /** Only the store follows the definition. */
  lemma StoreFollows(y: nat)
    ensures Required(StoreThenLoads(), 0, y) <==> y == 1
  {
    var b := StoreThenLoads();
    assert forall k :: Writes(b[0], k) <==> k == 1;
    assert forall k :: !Reads(b[0], k);
    assert forall i: nat, k :: 2 <= i < 35 ==> (Writes(b[i], k) <==> k == i) && !Reads(b[i], k);
    assert forall k :: !Writes(b[1], k) && (Reads(b[1], k) <==> k == 1);
    assert !Revisits(b[0]);
    assert y == 1 ==> NeedsFlow(b, 1, 0, 1);
  }

  lemma DefinitionFree()
    ensures Overfull(StoreThenLoads(), 1) && !Overfull(StoreThenLoads(), 0)
  {
    var b := StoreThenLoads();
    LoadsFollow();
    StoreShape();
    forall y: nat
      ensures Required(b, 0, y) <==> y == 1
    {
      StoreFollows(y);
    }
    hide Required;
    FiniteSets.SubsetSize(Followers(b, 0), {1});
    forall u: nat
      ensures !Required(b, u, 0)
    {
      FirstAlone(b, u);
    }
  }

  /** Nothing else comes before the first instruction. */
  lemma FirstAlone(b: Block, u: nat)
    requires Shape(b)
    ensures Required(b, u, 0) ==> u == 0
  {
    if Required(b, u, 0) {
      RequiredForward(b, u, 0);
    }
  }

  lemma StoreShape()
    ensures Shape(StoreThenLoads())
  {
  }

  lemma StoreAccess()
    ensures var b := StoreThenLoads();
            && (forall x: nat, k :: x < 35 ==> (Writes(b[x], k) <==> (x == 0 && k == 1) || (x >= 2 && k == x)))
            && (forall x: nat :: x < 35 ==> b[x].kind == Plain && !Revisits(b[x]) && (b[x].store <==> x == 1))
            && Reads(b[1], 1)
  {
    var b := StoreThenLoads();
    forall x: nat, k | x < 35
      ensures Writes(b[x], k) <==> (x == 0 && k == 1) || (x >= 2 && k == x)
    {
    }
  }

  /** The definition writes 5, the store stores what it reads. */
  ghost function StoreIt(): Sem {
    Sem((x: nat, k: nat, s: Machine) => 5,
        (x: nat, s: Machine) => if x == 1 && 1 in s.regs then s.regs[1] else 0,
        (x: nat, s: Machine) => s)
  }

  lemma StoreLocal()
    ensures Local(StoreThenLoads(), StoreIt())
  {
    StoreAccess();
    hide Writes, Reads;
  }

  lemma StoreStep(x: nat, s: Machine)
    requires x < 35 && Total(s) && Local(StoreThenLoads(), StoreIt())
    ensures var t := Step(StoreThenLoads(), StoreIt(), x, s);
            && Total(t) && t.mem == (if x == 1 then s.regs[1] else s.mem)
            && t.regs[1] == (if x == 0 then 5 else s.regs[1])
  {
    StoreAccess();
    StepTotal(StoreThenLoads(), StoreIt(), x, s);
    hide Writes, Reads, Local;
  }

  /** In the old order 5 is stored. */
  lemma {:induction false} StoresFive(n: nat, s: Machine)
    requires n <= 35 && Total(s) && Local(StoreThenLoads(), StoreIt())
    ensures InBlock(StoreThenLoads(), Sequence(n))
    ensures var t := Run(StoreThenLoads(), StoreIt(), Sequence(n), s);
            (n > 0 ==> t.regs[1] == 5) && (n > 1 ==> t.mem == 5)
  {
    hide Local, Run, Step;
    var b := StoreThenLoads();
    if n > 0 {
      StoresFive(n - 1, s);
      assert Sequence(n) == Sequence(n - 1) + [n - 1];
      RunSnoc(b, StoreIt(), Sequence(n - 1), n - 1, s);
      StoreStep(n - 1, Run(b, StoreIt(), Sequence(n - 1), s));
    }
  }

  /** With the store first, 0 is stored and stays. */
  lemma {:induction false} StoresZero(order: seq<nat>, p: nat, s: Machine)
    requires Partial(35, order) && Before(order, 1, 0) && p <= |order| && InBlock(StoreThenLoads(), order)
    requires Total(s) && s.mem == 0 && s.regs[1] == 0 && Local(StoreThenLoads(), StoreIt())
    ensures var t := Run(StoreThenLoads(), StoreIt(), order[..p], s);
            t.mem == 0 && (0 !in order[..p] ==> t.regs[1] == 0)
  {
    hide Local, Run, Step, Before;
    var b := StoreThenLoads();
    if p == 0 {
      RunEmpty(b, StoreIt(), s);
      assert order[..0] == [];
    } else {
      StoresZero(order, p - 1, s);
      var x := order[p - 1];
      assert order[..p] == order[..p - 1] + [x];
      RunSnoc(b, StoreIt(), order[..p - 1], x, s);
      StoreStep(x, Run(b, StoreIt(), order[..p - 1], s));
      if x == 1 {
        PlacedBefore(35, order, p - 1, 1, 0);
      }
    }
  }

  lemma StoreDiffers(order: seq<nat>)
    requires Permutation(35, order) && Before(order, 1, 0)
    ensures !SameResult(StoreThenLoads(), order)
  {
    hide Local, Run, Before;
    var b, s := StoreThenLoads(), Blank();
    StoreLocal();
    StoresFive(35, s);
    StoresZero(order, |order|, s);
    assert order[..|order|] == order;
  }

  /** The store is pinned to the start of the block, before the definition it reads, and stores
      something else. */
  method HoistsStore() returns (r: Outcome)
    ensures r.Overflowed? && Permutation(35, r.order) && !SameResult(StoreThenLoads(), r.order)
  {
    hide Shape, SameRun, SameResult, ReadersLed, ObservedLed, NoRevisits, Permutation, Good, Epoch, LongestFirst,
         Followers, Overfull, Required, TooMany, Before, Harmless, Revisits;
    var b := StoreThenLoads();
    NoBarriers(b, 35);
    StoreShape();
    StoreAccess();
    DefinitionFree();
    LateMeansFull(b, 1);
    r := ScheduleBlock(b);
    assert AtStart(b, 1) && !AtStart(b, 0);
    StoreDiffers(r.order);
  }
}
