/** Simplify and select: pushing nodes of low degree, popping them with a free colour. */
module Selection {
  import FiniteSets
  import opened Registers
  import opened Coalescing
  import opened Colourability

  const MAX_SGPRS: nat := 102
  const MAX_VGPRS: nat := 256

  /** The colours select tries for a file, and the degree bound simplify uses for it. */
  datatype Limits = Limits(sgprStart: nat, maxVgpr: nat) {
    function Low(f: File): nat {
      if f.Scalar? then sgprStart else 0
    }

    function High(f: File): nat {
      if f.Scalar? then MAX_SGPRS else MAX_VGPRS
    }

    /** K_sgpr and K_vgpr. */
    function K(f: File): nat {
      if f.Scalar? then if MAX_SGPRS > sgprStart then MAX_SGPRS - sgprStart else 0
      else if 0 < maxVgpr < MAX_VGPRS then maxVgpr else MAX_VGPRS
    }

    /** The bound is the number of colours there are, unless it is capped. */
    lemma EnoughColours(f: File)
      ensures K(f) == 0 || K(f) <= High(f) - Low(f)
      ensures f.Scalar? || maxVgpr == 0 || maxVgpr >= MAX_VGPRS ==>
                K(f) == if Low(f) <= High(f) then High(f) - Low(f) else 0
      ensures f.Vector? && 0 < maxVgpr < MAX_VGPRS ==> K(f) == maxVgpr
    {
    }
  }

  // ---- Degrees ----

  /** The neighbours of x still in the graph. */
  ghost function Around(ns: seq<Node>, g: Graph, x: nat): set<nat> {
    set m: nat | m < |ns| && m != x && ns[m].inGraph && (x, m) in g
  }

  ghost predicate DegreesExact(ns: seq<Node>, g: Graph) {
    forall x :: 0 <= x < |ns| && ns[x].inGraph ==> ns[x].degree == |Around(ns, g, x)|
  }

  /** Taking one node out and lowering its neighbours' degrees, the first k of them. */
  ghost predicate Lowered(ns: seq<Node>, ns': seq<Node>, g: Graph, n: nat, k: nat) {
    && |ns'| == |ns|
    && (forall x :: 0 <= x < |ns| ==>
          ns'[x] == ns[x].(inGraph := ns[x].inGraph && x != n,
                           degree := if x < k && x != n && ns[x].inGraph && (n, x) in g && ns[x].degree > 0
                                     then ns[x].degree - 1 else ns[x].degree))
  }

  lemma LoweredExact(ns: seq<Node>, ns': seq<Node>, g: Graph, n: nat)
    requires DegreesExact(ns, g) && Symmetric(g) && n < |ns| && ns[n].inGraph
    requires Lowered(ns, ns', g, n, |ns|)
    ensures DegreesExact(ns', g)
  {
    forall x | 0 <= x < |ns'| && ns'[x].inGraph
      ensures ns'[x].degree == |Around(ns', g, x)|
    {
      var was, now := Around(ns, g, x), Around(ns', g, x);
      if (n, x) in g {
        assert n in was;
        assert now == was - {n};
      } else {
        assert now == was;
      }
    }
  }

  /** Remove a node from the graph: the inner loop of simplify. */
  method RemoveNode(nodes: array<Node>, ifg: array2<bool>, n: nat)
    requires ifg.Length0 == ifg.Length1 == nodes.Length && n < nodes.Length && nodes[n].inGraph
    requires Uniform(nodes[..], Edges(ifg)) && Symmetric(Edges(ifg)) && DegreesExact(nodes[..], Edges(ifg))
    modifies nodes
    ensures Lowered(old(nodes[..]), nodes[..], Edges(ifg), n, nodes.Length)
    ensures DegreesExact(nodes[..], Edges(ifg))
  {
    hide DegreesExact, Edges, Symmetric;
    ghost var ns, g := nodes[..], Edges(ifg);
    nodes[n] := nodes[n].(inGraph := false);
    for m := 0 to nodes.Length
      invariant Lowered(ns, nodes[..], g, n, m)
    {
      EdgeTest(ifg, n, m);
      ghost var before := nodes[..];
      if nodes[m].inGraph && ifg[n, m] && nodes[m].file == nodes[n].file && nodes[m].degree > 0 {
        nodes[m] := nodes[m].(degree := nodes[m].degree - 1);
      }
      LoweredStep(ns, before, nodes[..], g, n, m);
    }
    LoweredExact(ns, nodes[..], g, n);
  }

  lemma LoweredStep(ns: seq<Node>, before: seq<Node>, after: seq<Node>, g: Graph, n: nat, m: nat)
    requires Lowered(ns, before, g, n, m) && Uniform(ns, g) && m < |ns| && n < |ns|
    requires after == if before[m].inGraph && (n, m) in g && before[m].file == before[n].file && before[m].degree > 0
                      then before[m := before[m].(degree := before[m].degree - 1)] else before
    ensures Lowered(ns, after, g, n, m + 1)
  {
    assert (n, m) in g ==> ns[m].file == ns[n].file;
  }

  /** The degree pass after coalescing: only representatives stay in the graph, each with the
      number of its neighbours there. */
  method RecomputeDegrees(nodes: array<Node>, ifg: array2<bool>, ghost rep: seq<nat>, ghost rank: seq<nat>,
      ghost top: nat)
    requires ifg.Length0 == ifg.Length1 == nodes.Length == |rep|
    requires Forest(nodes[..], rep, rank, top) && Uniform(nodes[..], Edges(ifg))
    requires forall x :: 0 <= x < nodes.Length ==> (nodes[x].inGraph <==> rep[x] == x)
    modifies nodes
    ensures Forest(nodes[..], rep, rank, top)
    ensures SameButLinks(old(nodes[..]), nodes[..])
    ensures DegreesExact(nodes[..], Edges(ifg))
  {
    hide Forest, Around, Uniform, DegreesExact, Edges;
    ghost var ns, g := nodes[..], Edges(ifg);
    SameLinks(ns);
    for n := 0 to nodes.Length
      invariant Forest(nodes[..], rep, rank, top)
      invariant SameButLinks(ns, nodes[..])
      invariant ExactUpTo(ns, nodes[..], g, n)
    {
      RecomputeOne(nodes, ifg, n, rep, rank, top, ns, g);
    }
    ExactAll(ns, nodes[..], g);
  }

  lemma SameLinks(ns: seq<Node>)
    ensures SameButLinks(ns, ns)
  {
  }

  ghost predicate ExactUpTo(ns: seq<Node>, ns': seq<Node>, g: Graph, n: nat) {
    n <= |ns| == |ns'| && forall x :: 0 <= x < n && ns[x].inGraph ==> ns'[x].degree == |Around(ns, g, x)|
  }

  lemma ExactAll(ns: seq<Node>, ns': seq<Node>, g: Graph)
    requires SameButLinks(ns, ns') && ExactUpTo(ns, ns', g, |ns|)
    ensures DegreesExact(ns', g)
  {
    SameAround(ns, ns', g);
  }

  method RecomputeOne(nodes: array<Node>, ifg: array2<bool>, n: nat, ghost rep: seq<nat>, ghost rank: seq<nat>,
      ghost top: nat, ghost ns: seq<Node>, ghost g: Graph)
    requires ifg.Length0 == ifg.Length1 == nodes.Length == |rep| == |ns| && n < nodes.Length
    requires Forest(nodes[..], rep, rank, top) && SameButLinks(ns, nodes[..]) && g == Edges(ifg) && Uniform(ns, g)
    requires forall x :: 0 <= x < |ns| ==> (ns[x].inGraph <==> rep[x] == x)
    requires ExactUpTo(ns, nodes[..], g, n)
    modifies nodes
    ensures Forest(nodes[..], rep, rank, top)
    ensures SameButLinks(ns, nodes[..])
    ensures ExactUpTo(ns, nodes[..], g, n + 1)
  {
    hide Forest, Around, Uniform, Edges;
    var r := Find(nodes, n, rep, rank, top);
    if r != n {
      ghost var before := nodes[..];
      nodes[n] := nodes[n].(inGraph := false);
      ForestByAlias(before, nodes[..], rep, rank, top);
    } else if nodes[n].inGraph {
      var deg := CountAround(nodes, ifg, n, rep, rank, top, ns, g);
      ghost var before := nodes[..];
      nodes[n] := nodes[n].(degree := deg);
      ForestByAlias(before, nodes[..], rep, rank, top);
    }
  }

  lemma SameAround(ns: seq<Node>, ns': seq<Node>, g: Graph)
    requires SameButLinks(ns, ns')
    ensures forall x :: Around(ns', g, x) == Around(ns, g, x)
  {
  }

  method CountAround(nodes: array<Node>, ifg: array2<bool>, n: nat, ghost rep: seq<nat>, ghost rank: seq<nat>,
      ghost top: nat, ghost ns: seq<Node>, ghost g: Graph) returns (deg: nat)
    requires ifg.Length0 == ifg.Length1 == nodes.Length == |rep| == |ns| && n < nodes.Length
    requires Forest(nodes[..], rep, rank, top) && SameButLinks(ns, nodes[..]) && g == Edges(ifg) && Uniform(ns, g)
    requires forall x :: 0 <= x < |ns| ==> (ns[x].inGraph <==> rep[x] == x)
    modifies nodes
    ensures Forest(nodes[..], rep, rank, top)
    ensures SameButAlias(old(nodes[..]), nodes[..])
    ensures deg == |Around(ns, g, n)|
  {
    hide Forest, Around, Edges;
    deg := 0;
    ghost var was := nodes[..];
    SeenNone(ns, g, n);
    for m := 0 to nodes.Length
      invariant Forest(nodes[..], rep, rank, top) && SameButAlias(was, nodes[..])
      invariant deg == |Seen(ns, g, n, m)|
    {
      SeenStep(ns, g, n, m);
      EdgeTest(ifg, n, m);
      if m != n {
        var r := Find(nodes, m, rep, rank, top);
        if r == m && nodes[m].inGraph && ifg[n, m] && nodes[m].file == nodes[n].file {
          deg := deg + 1;
        }
      }
    }
    SeenAll(ns, g, n);
  }

  lemma EdgeTest(ifg: array2<bool>, u: nat, v: nat)
    requires u < ifg.Length0 && v < ifg.Length1
    ensures (u, v) in Edges(ifg) <==> ifg[u, v]
  {
  }

  ghost function Seen(ns: seq<Node>, g: Graph, n: nat, m: nat): set<nat> {
    set k | k in Around(ns, g, n) && k < m
  }

  lemma SeenNone(ns: seq<Node>, g: Graph, n: nat)
    ensures |Seen(ns, g, n, 0)| == 0
  {
    assert Seen(ns, g, n, 0) == {};
  }

  lemma SeenAll(ns: seq<Node>, g: Graph, n: nat)
    ensures Seen(ns, g, n, |ns|) == Around(ns, g, n)
  {
  }

  lemma SeenStep(ns: seq<Node>, g: Graph, n: nat, m: nat)
    requires m < |ns|
    ensures |Seen(ns, g, n, m + 1)| == |Seen(ns, g, n, m)| + if m != n && ns[m].inGraph && (n, m) in g then 1 else 0
  {
    if m in Around(ns, g, n) {
      assert Seen(ns, g, n, m + 1) == Seen(ns, g, n, m) + {m};
    } else {
      assert Seen(ns, g, n, m + 1) == Seen(ns, g, n, m);
    }
  }

  // ---- Simplify ----

  const MAX_NODES: nat := 8192

  /** The neighbours of the i-th stacked node that were in the graph when it was pushed: those
      stacked after it and those still there. */
  ghost function Later(ns: seq<Node>, g: Graph, stack: seq<nat>, i: nat): set<nat>
    requires i < |stack|
  {
    set m: nat | m < |ns| && (stack[i], m) in g && (ns[m].inGraph || m in stack[i + 1..])
  }

  ghost predicate Distinct(stack: seq<nat>) {
    forall i, j :: 0 <= i < j < |stack| ==> stack[i] != stack[j]
  }

  /** The stack and the graph split the nodes there were at the start; exactly the nodes pushed as
      low degree have fewer than K neighbours above them. */
  ghost predicate StackOk(start: seq<Node>, ns: seq<Node>, g: Graph, lim: Limits, stack: seq<nat>, low: seq<bool>) {
    && |ns| == |start| && |low| == |stack| && Distinct(stack)
    && (forall x :: 0 <= x < |ns| ==> ns[x].file == start[x].file)
    && (forall x: nat :: x < |ns| ==> (start[x].inGraph <==> ns[x].inGraph || x in stack))
    && (forall i :: 0 <= i < |stack| ==> stack[i] < |ns| && !ns[stack[i]].inGraph)
    && (forall i :: 0 <= i < |stack| ==> (low[i] <==> |Later(ns, g, stack, i)| < lim.K(ns[stack[i]].file)))
  }

  lemma LaterKept(ns: seq<Node>, ns': seq<Node>, g: Graph, stack: seq<nat>, n: nat, i: nat)
    requires Lowered(ns, ns', g, n, |ns|) && n < |ns| && ns[n].inGraph && i < |stack|
    ensures Later(ns', g, stack + [n], i) == Later(ns, g, stack, i)
  {
    assert (stack + [n])[i + 1..] == stack[i + 1..] + [n];
  }

  lemma LaterNew(ns: seq<Node>, ns': seq<Node>, g: Graph, stack: seq<nat>, n: nat)
    requires Lowered(ns, ns', g, n, |ns|) && n < |ns| && ns[n].inGraph
    ensures Later(ns', g, stack + [n], |stack|) == Around(ns, g, n)
  {
    assert (stack + [n])[|stack| + 1..] == [];
  }

  lemma PushOk(start: seq<Node>, ns: seq<Node>, ns': seq<Node>, g: Graph, lim: Limits, stack: seq<nat>, low: seq<bool>,
      n: nat)
    requires StackOk(start, ns, g, lim, stack, low) && DegreesExact(ns, g)
    requires n < |ns| && ns[n].inGraph && Lowered(ns, ns', g, n, |ns|)
    ensures StackOk(start, ns', g, lim, stack + [n], low + [ns[n].degree < lim.K(ns[n].file)])
  {
    var stack', low' := stack + [n], low + [ns[n].degree < lim.K(ns[n].file)];
    forall i | 0 <= i < |stack'|
      ensures low'[i] <==> |Later(ns', g, stack', i)| < lim.K(ns'[stack'[i]].file)
    {
      if i < |stack| {
        LaterKept(ns, ns', g, stack, n, i);
      } else {
        LaterNew(ns, ns', g, stack, n);
      }
    }
  }

  ghost function InGraph(ns: seq<Node>): set<nat> {
    set x: nat | x < |ns| && ns[x].inGraph
  }

  lemma OneLess(ns: seq<Node>, ns': seq<Node>, g: Graph, n: nat)
    requires Lowered(ns, ns', g, n, |ns|) && n < |ns| && ns[n].inGraph
    ensures |InGraph(ns')| == |InGraph(ns)| - 1
  {
    assert InGraph(ns') == InGraph(ns) - {n};
  }

  /** The first node of the graph with degree below its bound, if there is one. */
  method FindLow(nodes: array<Node>, lim: Limits) returns (found: bool, n: nat)
    ensures found ==> n < nodes.Length && nodes[n].inGraph && nodes[n].degree < lim.K(nodes[n].file)
    ensures !found ==> forall x :: 0 <= x < nodes.Length && nodes[x].inGraph ==> nodes[x].degree >= lim.K(nodes[x].file)
  {
    n := 0;
    found := false;
    while n < nodes.Length
      invariant 0 <= n <= nodes.Length
      invariant forall x :: 0 <= x < n && nodes[x].inGraph ==> nodes[x].degree >= lim.K(nodes[x].file)
    {
      if nodes[n].inGraph && nodes[n].degree < lim.K(nodes[n].file) {
        found := true;
        return;
      }
      n := n + 1;
    }
  }

  const WORD: nat := 0x1_0000_0000

  /** No product of a cost and a degree overflows 32 bits. */
  ghost predicate ProductsFit(ns: seq<Node>) {
    forall x, y :: 0 <= x < |ns| && 0 <= y < |ns| && ns[x].inGraph && ns[y].inGraph ==>
        ns[x].cost * (ns[y].degree + 1) < WORD
  }

  /** Node x costs no more per degree than node y. */
  ghost predicate Cheaper(x: Node, y: Node) {
    x.cost * (y.degree + 1) <= y.cost * (x.degree + 1)
  }

  /** The node of least cost per degree, compared by cross-multiplication in 32 bits. */
  method PickSpill(nodes: array<Node>) returns (have: bool, best: nat)
    ensures have ==> best < nodes.Length && nodes[best].inGraph
    ensures have && ProductsFit(nodes[..]) ==>
              forall x :: 0 <= x < nodes.Length && nodes[x].inGraph ==> Cheaper(nodes[best], nodes[x])
    ensures !have ==> forall x :: 0 <= x < nodes.Length ==> !nodes[x].inGraph
  {
    hide Cheaper, ProductsFit;
    have, best := false, 0;
    for n := 0 to nodes.Length
      invariant have ==> best < n && nodes[best].inGraph
      invariant have && ProductsFit(nodes[..]) ==>
                  forall x :: 0 <= x < n && nodes[x].inGraph ==> Cheaper(nodes[best], nodes[x])
      invariant !have ==> forall x :: 0 <= x < n ==> !nodes[x].inGraph
    {
      if nodes[n].inGraph {
        if have && ProductsFit(nodes[..]) {
          Compared(nodes[..], best, n);
        }
        SameRatio(nodes[n]);
        if !have || nodes[n].cost * (nodes[best].degree + 1) % WORD < nodes[best].cost * (nodes[n].degree + 1) % WORD {
          best := n;
          have := true;
        }
      }
    }
  }

  lemma SameRatio(x: Node)
    ensures Cheaper(x, x)
  {
  }

  lemma Compared(ns: seq<Node>, best: nat, n: nat)
    requires best < |ns| && n < |ns| && ns[best].inGraph && ns[n].inGraph && ProductsFit(ns)
    ensures var less := ns[n].cost * (ns[best].degree + 1) % WORD < ns[best].cost * (ns[n].degree + 1) % WORD;
            if less then forall x :: Cheaper(ns[best], x) ==> Cheaper(ns[n], x) else Cheaper(ns[best], ns[n])
  {
    var a, b := ns[n].cost * (ns[best].degree + 1), ns[best].cost * (ns[n].degree + 1);
    assert a < WORD && b < WORD;
    NoWrap(a, b);
    if a < b {
      forall x | Cheaper(ns[best], x)
        ensures Cheaper(ns[n], x)
      {
        CrossTransitive(ns[n].cost, ns[n].degree + 1, ns[best].cost, ns[best].degree + 1, x.cost, x.degree + 1);
      }
    }
  }

  lemma NoWrap(a: nat, b: nat)
    requires a < WORD && b < WORD
    ensures a % WORD == a && b % WORD == b
  {
  }

  /** Comparing ratios by cross-multiplication is transitive. */
  lemma CrossTransitive(a: nat, p: nat, b: nat, q: nat, c: nat, r: nat)
    requires p > 0 && q > 0 && r > 0 && a * q <= b * p && b * r <= c * q
    ensures a * r <= c * p
  {
    Scale(a * q, b * p, r);
    Scale(b * r, c * q, p);
    assert (a * r) * q == (a * q) * r && (b * p) * r == (b * r) * p && (c * q) * p == (c * p) * q;
    Unscale(a * r, c * p, q);
  }

  lemma Scale(x: nat, y: nat, k: nat)
    requires x <= y
    ensures x * k <= y * k
  {
  }

  lemma Unscale(x: nat, y: nat, k: nat)
    requires k > 0 && x * k <= y * k
    ensures x <= y
  {
  }

  /** What simplify keeps at each push. */
  ghost predicate Simplifying(start: seq<Node>, ns: seq<Node>, g: Graph, lim: Limits, stack: seq<nat>, low: seq<bool>) {
    && StackOk(start, ns, g, lim, stack, low) && DegreesExact(ns, g)
    && Symmetric(g) && Uniform(ns, g)
    && (forall x :: 0 <= x < |ns| ==> ns[x] == start[x].(inGraph := ns[x].inGraph, degree := ns[x].degree))
  }

  lemma PushKeeps(start: seq<Node>, ns: seq<Node>, ns': seq<Node>, g: Graph, lim: Limits, stack: seq<nat>,
      low: seq<bool>, n: nat)
    requires Simplifying(start, ns, g, lim, stack, low)
    requires n < |ns| && ns[n].inGraph && Lowered(ns, ns', g, n, |ns|)
    ensures Simplifying(start, ns', g, lim, stack + [n], low + [ns[n].degree < lim.K(ns[n].file)])
  {
    PushOk(start, ns, ns', g, lim, stack, low, n);
    LoweredExact(ns, ns', g, n);
    hide StackOk, DegreesExact, Symmetric;
  }

  method CountNodes(nodes: array<Node>) returns (left: nat)
    ensures left == |InGraph(nodes[..])|
  {
    left := 0;
    ghost var seen: set<nat> := {};
    for n := 0 to nodes.Length
      invariant seen == (set x: nat | x < n && nodes[x].inGraph) && left == |seen|
    {
      if nodes[n].inGraph {
        left := left + 1;
        seen := seen + {n};
      }
    }
    assert seen == InGraph(nodes[..]);
  }

  lemma NoneLeft(ns: seq<Node>)
    requires |InGraph(ns)| == 0
    ensures forall x :: 0 <= x < |ns| ==> !ns[x].inGraph
  {
    forall x: nat | x < |ns|
      ensures !ns[x].inGraph
    {
      assert x !in InGraph(ns);
    }
  }

  lemma SomeLeft(ns: seq<Node>)
    requires |InGraph(ns)| > 0
    ensures exists x :: 0 <= x < |ns| && ns[x].inGraph
  {
    var x :| x in InGraph(ns);
  }

  // ---- When simplify finds only low nodes ----

  ghost function Bounds(ns: seq<Node>, lim: Limits): (ks: seq<nat>)
    ensures |ks| == |ns| && forall x :: 0 <= x < |ns| ==> ks[x] == lim.K(ns[x].file)
  {
    seq(|ns|, x requires 0 <= x < |ns| => lim.K(ns[x].file))
  }

  ghost predicate AllLow(low: seq<bool>) {
    forall i :: 0 <= i < |low| ==> low[i]
  }

  lemma AroundIsNeighbours(ns: seq<Node>, g: Graph, x: nat)
    ensures Around(ns, g, x) == Neighbours(g, InGraph(ns), x)
  {
  }

  /** What is left of a reducible graph has a low node. */
  lemma LowExists(start: seq<Node>, ns: seq<Node>, g: Graph, lim: Limits, stack: seq<nat>, low: seq<bool>)
    requires Simplifying(start, ns, g, lim, stack, low) && Reducible(g, InGraph(start), Bounds(start, lim))
    requires |InGraph(ns)| > 0
    ensures exists x :: 0 <= x < |ns| && ns[x].inGraph && ns[x].degree < lim.K(ns[x].file)
  {
    var s := InGraph(ns);
    assert s <= InGraph(start);
    assert HasLow(g, s, Bounds(start, lim));
    var x :| x in s && x < |start| && |Neighbours(g, s, x)| < Bounds(start, lim)[x];
    AroundIsNeighbours(ns, g, x);
  }

  /** The member of s deepest in the stack. */
  lemma {:induction false} DeepestOf(stack: seq<nat>, s: set<nat>, k: nat) returns (i: nat)
    requires k < |stack| && stack[k] in s
    ensures i <= k && stack[i] in s && forall j :: 0 <= j < i ==> stack[j] !in s
  {
    if j :| 0 <= j < k && stack[j] in s {
      i := DeepestOf(stack, s, j);
    } else {
      i := k;
    }
  }

  /** A stack of low nodes only empties every part of the graph. */
  lemma AllLowReduces(start: seq<Node>, ns: seq<Node>, g: Graph, lim: Limits, stack: seq<nat>, low: seq<bool>)
    requires StackOk(start, ns, g, lim, stack, low) && AllLow(low) && forall x :: 0 <= x < |ns| ==> !ns[x].inGraph
    ensures Reducible(g, InGraph(start), Bounds(start, lim))
  {
    forall s: set<nat> | s <= InGraph(start) && s != {}
      ensures HasLow(g, s, Bounds(start, lim))
    {
      var x := FiniteSets.Pick(s);
      assert x in stack;
      var k :| 0 <= k < |stack| && stack[k] == x;
      var i := DeepestOf(stack, s, k);
      PartAbove(start, ns, g, lim, stack, low, s, i);
    }
  }

  lemma PartAbove(start: seq<Node>, ns: seq<Node>, g: Graph, lim: Limits, stack: seq<nat>, low: seq<bool>, s: set<nat>,
      i: nat)
    requires StackOk(start, ns, g, lim, stack, low) && AllLow(low) && forall x :: 0 <= x < |ns| ==> !ns[x].inGraph
    requires i < |stack| && stack[i] in s && s <= InGraph(start) && forall j :: 0 <= j < i ==> stack[j] !in s
    ensures HasLow(g, s, Bounds(start, lim))
  {
    var near, later := Neighbours(g, s, stack[i]), Later(ns, g, stack, i);
    forall m | m in near
      ensures m in later
    {
      assert m in stack;
      var j :| 0 <= j < |stack| && stack[j] == m;
      assert j > i;
      assert stack[i + 1..][j - i - 1] == m;
    }
    FiniteSets.SubsetSize(near, later);
  }

  /** The simplify loop: empty the graph onto the stack.  It meets nothing but low nodes exactly
      when every part of the graph has one. */
  method Simplify(nodes: array<Node>, ifg: array2<bool>, lim: Limits) returns (stack: seq<nat>, ghost low: seq<bool>)
    requires ifg.Length0 == ifg.Length1 == nodes.Length <= MAX_NODES
    requires Simplifying(nodes[..], nodes[..], Edges(ifg), lim, [], [])
    modifies nodes
    ensures Simplifying(old(nodes[..]), nodes[..], Edges(ifg), lim, stack, low)
    ensures forall x :: 0 <= x < nodes.Length ==> !nodes[x].inGraph
    ensures AllLow(low) <==> Reducible(Edges(ifg), InGraph(old(nodes[..])), Bounds(old(nodes[..]), lim))
  {
    hide Simplifying, InGraph, Edges, Reducible, ProductsFit;
    stack, low := [], [];
    ghost var start, g := nodes[..], Edges(ifg);
    var left := CountNodes(nodes);
    GraphSize(nodes[..]);
    var guard := 0;
    while guard < MAX_NODES && left > 0
      invariant left == |InGraph(nodes[..])| && left + guard <= nodes.Length
      invariant Simplifying(start, nodes[..], g, lim, stack, low)
      invariant Reducible(g, InGraph(start), Bounds(start, lim)) ==> AllLow(low)
    {
      if Reducible(g, InGraph(start), Bounds(start, lim)) {
        LowExists(start, nodes[..], g, lim, stack, low);
      }
      var found, n := FindLow(nodes, lim);
      SomeLeft(nodes[..]);
      if !found {
        var have, best := PickSpill(nodes);
        n := best;
      }
      ghost var ns := nodes[..];
      SimplifyingParts(start, ns, g, lim, stack, low);
      RemoveNode(nodes, ifg, n);
      PushKeeps(start, ns, nodes[..], g, lim, stack, low, n);
      OneLess(ns, nodes[..], g, n);
      stack, low := stack + [n], low + [ns[n].degree < lim.K(ns[n].file)];
      left := left - 1;
      guard := guard + 1;
    }
    NoneLeft(nodes[..]);
    SimplifyingParts(start, nodes[..], g, lim, stack, low);
    if AllLow(low) {
      AllLowReduces(start, nodes[..], g, lim, stack, low);
    }
  }

  lemma SimplifyingParts(start: seq<Node>, ns: seq<Node>, g: Graph, lim: Limits, stack: seq<nat>, low: seq<bool>)
    requires Simplifying(start, ns, g, lim, stack, low)
    ensures Uniform(ns, g) && Symmetric(g) && DegreesExact(ns, g) && StackOk(start, ns, g, lim, stack, low)
  {
  }

  lemma GraphSize(ns: seq<Node>)
    ensures |InGraph(ns)| <= |ns|
  {
    FiniteSets.BelowSize(InGraph(ns), |ns|);
  }

  // ---- Select ----

  /** The colours of the representatives joined to n, itself aside. */
  ghost function Used(ns: seq<Node>, rep: seq<nat>, g: Graph, n: nat): set<int>
    requires |rep| == |ns| && (forall x :: 0 <= x < |rep| ==> rep[x] < |ns|)
  {
    set m: nat | m < |ns| && UsesColour(ns, rep, g, n, m) :: ns[rep[m]].colour
  }

  ghost predicate UsesColour(ns: seq<Node>, rep: seq<nat>, g: Graph, n: nat, m: nat)
    requires |rep| == |ns| && (forall x :: 0 <= x < |rep| ==> rep[x] < |ns|) && m < |ns|
  {
    (n, m) in g && rep[m] != n && ns[rep[m]].colour != NO_COLOUR
  }

  lemma SameUsed(ns: seq<Node>, ns': seq<Node>, rep: seq<nat>, g: Graph, n: nat)
    requires |rep| == |ns| && (forall x :: 0 <= x < |rep| ==> rep[x] < |ns|) && SameButAlias(ns, ns')
    ensures Used(ns', rep, g, n) == Used(ns, rep, g, n)
  {
    forall m: nat | m < |ns|
      ensures UsesColour(ns', rep, g, n, m) == UsesColour(ns, rep, g, n, m)
    {
    }
  }

  ghost predicate Roots(rep: seq<nat>, n: nat) {
    |rep| == n && (forall x :: 0 <= x < n ==> rep[x] < n && rep[rep[x]] == rep[x])
  }

  /** Collect the colours taken around n. */
  method UsedColours(nodes: array<Node>, ifg: array2<bool>, n: nat, ghost rep: seq<nat>, ghost rank: seq<nat>,
      ghost top: nat)
    returns (used: set<int>)
    requires ifg.Length0 == ifg.Length1 == nodes.Length && n < nodes.Length
    requires Forest(nodes[..], rep, rank, top) && Roots(rep, nodes.Length)
    requires Uniform(nodes[..], Edges(ifg)) && SameFiles(nodes[..], rep)
    modifies nodes
    ensures Forest(nodes[..], rep, rank, top)
    ensures SameButAlias(old(nodes[..]), nodes[..])
    ensures used == Used(old(nodes[..]), rep, Edges(ifg), n)
  {
    used := {};
    hide Forest, Used;
    ghost var ns, g := nodes[..], Edges(ifg);
    for m := 0 to nodes.Length
      invariant Forest(nodes[..], rep, rank, top)
      invariant SameButAlias(ns, nodes[..])
      invariant used == UsedUpTo(ns, rep, g, n, m)
    {
      UsedStep(ns, rep, g, n, m);
      if ifg[n, m] {
        var mr := Find(nodes, m, rep, rank, top);
        assert ns[mr].file == ns[n].file;
        if mr != n {
          if nodes[mr].colour != NO_COLOUR && nodes[mr].file == nodes[n].file {
            used := used + {nodes[mr].colour};
          }
        }
      }
    }
    UsedAll(ns, rep, g, n);
  }

  ghost function UsedUpTo(ns: seq<Node>, rep: seq<nat>, g: Graph, n: nat, k: nat): set<int>
    requires Roots(rep, |ns|)
  {
    set m: nat | m < k && m < |ns| && UsesColour(ns, rep, g, n, m) :: ns[rep[m]].colour
  }

  lemma UsedStep(ns: seq<Node>, rep: seq<nat>, g: Graph, n: nat, k: nat)
    requires Roots(rep, |ns|) && k < |ns|
    ensures UsedUpTo(ns, rep, g, n, k + 1) ==
              UsedUpTo(ns, rep, g, n, k) + if UsesColour(ns, rep, g, n, k) then {ns[rep[k]].colour} else {}
  {
    hide UsesColour;
  }

  lemma UsedAll(ns: seq<Node>, rep: seq<nat>, g: Graph, n: nat)
    requires Roots(rep, |ns|)
    ensures UsedUpTo(ns, rep, g, n, |ns|) == Used(ns, rep, g, n)
  {
    hide UsesColour;
  }

  /** The first colour of the range not taken. */
  method FirstFree(used: set<int>, lo: nat, hi: nat) returns (picked: int)
    requires hi <= NO_COLOUR
    ensures picked != NO_COLOUR ==> lo <= picked < hi && picked !in used
    ensures picked == NO_COLOUR ==> forall r :: lo <= r < hi ==> r in used
  {
    picked := NO_COLOUR;
    var r := lo;
    while r < hi
      invariant lo <= r && picked == NO_COLOUR
      invariant forall q :: lo <= q < r && q < hi ==> q in used
    {
      if r !in used {
        return r;
      }
      r := r + 1;
    }
  }

  lemma {:induction false} RangeSize(lo: int, hi: int, used: set<int>)
    requires lo <= hi && forall r :: lo <= r < hi ==> r in used
    ensures hi - lo <= |used|
    decreases hi - lo
  {
    if lo < hi {
      RangeSize(lo + 1, hi, used - {lo});
    }
  }

  lemma {:induction false} ImageSize(ns: seq<Node>, used: set<int>, from: set<nat>)
    requires forall c :: c in used ==> exists y :: y in from && y < |ns| && ns[y].colour == c
    ensures |used| <= |from|
    decreases used
  {
    if used != {} {
      var c := FiniteSets.Pick(used);
      var y :| y in from && y < |ns| && ns[y].colour == c;
      forall d | d in used - {c}
        ensures exists z :: z in from - {y} && z < |ns| && ns[z].colour == d
      {
        var z :| z in from && z < |ns| && ns[z].colour == d;
        assert z in from - {y};
      }
      ImageSize(ns, used - {c}, from - {y});
    }
  }

  /** Some neighbour of x has colour r. */
  ghost predicate Taken(ns: seq<Node>, g: Graph, x: nat, r: int) {
    exists y: nat :: y < |ns| && (x, y) in g && ns[y].colour == r
  }

  /** The neighbours of x have all the colours of its file. */
  ghost predicate Blocked(ns: seq<Node>, g: Graph, lim: Limits, x: nat)
    requires x < |ns|
  {
    forall r :: lim.Low(ns[x].file) <= r < lim.High(ns[x].file) ==> Taken(ns, g, x, r)
  }

  /** Every colour given to the nodes popped so far, stack[top..], is in range and differs from
      its neighbours'; a node pushed with low degree has one, and one without a colour has
      neighbours of every colour. */
  ghost predicate Chosen(ns: seq<Node>, g: Graph, lim: Limits, stack: seq<nat>, low: seq<bool>, top: nat) {
    && top <= |stack| == |low|
    && (forall i :: 0 <= i < |stack| ==> stack[i] < |ns|)
    && (forall x: nat :: x < |ns| && x !in stack[top..] ==> ns[x].colour == NO_COLOUR && !ns[x].spilled)
    && (forall i :: top <= i < |stack| ==> InRange(lim, ns[stack[i]]) && (low[i] ==> !ns[stack[i]].spilled))
    && (forall i :: top <= i < |stack| && ns[stack[i]].spilled ==> Blocked(ns, g, lim, stack[i]))
    && (forall x, y :: (x, y) in g && x < |ns| && y < |ns| ==> Different(ns[x], ns[y]))
  }

  predicate InRange(lim: Limits, x: Node) {
    && (x.spilled <==> x.colour == NO_COLOUR)
    && (!x.spilled ==> lim.Low(x.file) <= x.colour < lim.High(x.file))
  }

  predicate Different(x: Node, y: Node) {
    x.colour == y.colour ==> x.colour == NO_COLOUR
  }

  /** A low-degree node always finds a colour: its coloured neighbours were all above it. */
  lemma LowFindsColour(start: seq<Node>, ns: seq<Node>, rep: seq<nat>, g: Graph, lim: Limits,
                       stack: seq<nat>, low: seq<bool>, top: nat)
    requires StackOk(start, ns, g, lim, stack, low) && Chosen(ns, g, lim, stack, low, top) && top > 0
    requires Roots(rep, |ns|) && Lifted(rep, g) && rep[stack[top - 1]] == stack[top - 1] && low[top - 1]
    ensures var n := stack[top - 1];
            exists r :: lim.Low(ns[n].file) <= r < lim.High(ns[n].file) && r !in Used(ns, rep, g, n)
  {
    var i, n := top - 1, stack[top - 1];
    var used, later := Used(ns, rep, g, n), Later(ns, g, stack, i);
    forall c | c in used
      ensures exists y :: y in later && y < |ns| && ns[y].colour == c
    {
      var m: nat :| m < |ns| && UsesColour(ns, rep, g, n, m) && ns[rep[m]].colour == c;
      var y := rep[m];
      assert (n, y) in g;
      assert y in stack[top..];
      assert y in later;
    }
    ImageSize(ns, used, later);
    var lo, hi := lim.Low(ns[n].file), lim.High(ns[n].file);
    lim.EnoughColours(ns[n].file);
    if forall r :: lo <= r < hi ==> r in used {
      RangeSize(lo, hi, used);
    }
  }

  ghost predicate SameGraph(a: seq<Node>, b: seq<Node>) {
    |a| == |b| && forall x :: 0 <= x < |a| ==> a[x].file == b[x].file && a[x].inGraph == b[x].inGraph
  }

  lemma StackOkFrame(start: seq<Node>, ns: seq<Node>, ns': seq<Node>, g: Graph, lim: Limits, stack: seq<nat>,
      low: seq<bool>)
    requires StackOk(start, ns, g, lim, stack, low) && SameGraph(ns, ns')
    ensures StackOk(start, ns', g, lim, stack, low)
  {
    forall i | 0 <= i < |stack|
      ensures low[i] <==> |Later(ns', g, stack, i)| < lim.K(ns'[stack[i]].file)
    {
      assert Later(ns', g, stack, i) == Later(ns, g, stack, i);
    }
  }

  /** The node after select has dealt with it. */
  function Coloured(x: Node, c: int): Node {
    if c != NO_COLOUR then x.(colour := c) else x.(spilled := true)
  }

  /** Everything select relies on besides the colours: the stack, the forest and the edges. */
  ghost predicate SelectReady(start: seq<Node>, ns: seq<Node>, rep: seq<nat>, g: Graph, lim: Limits, stack: seq<nat>,
      low: seq<bool>) {
    && StackOk(start, ns, g, lim, stack, low)
    && Roots(rep, |ns|) && Lifted(rep, g) && Symmetric(g)
    && (forall x :: 0 <= x < |ns| ==> (start[x].inGraph <==> rep[x] == x))
  }

  lemma StackHoldsRoots(start: seq<Node>, ns: seq<Node>, rep: seq<nat>, g: Graph, lim: Limits, stack: seq<nat>,
      low: seq<bool>, i: nat)
    requires SelectReady(start, ns, rep, g, lim, stack, low) && i < |stack|
    ensures stack[i] < |ns| == |rep| && rep[stack[i]] == stack[i]
  {
    assert stack[i] in stack;
  }

  lemma NeighbourColourUsed(start: seq<Node>, ns: seq<Node>, rep: seq<nat>, g: Graph, lim: Limits,
                            stack: seq<nat>, low: seq<bool>, top: nat, y: nat)
    requires SelectReady(start, ns, rep, g, lim, stack, low) && Chosen(ns, g, lim, stack, low, top) && top > 0
    requires (stack[top - 1], y) in g && y < |ns| && ns[y].colour != NO_COLOUR
    ensures ns[y].colour in Used(ns, rep, g, stack[top - 1])
  {
    assert y in stack[top..];
    var j :| top <= j < |stack| && stack[j] == y;
    StackHoldsRoots(start, ns, rep, g, lim, stack, low, j);
    assert UsesColour(ns, rep, g, stack[top - 1], y);
  }

  /** c is the outcome of looking for a free colour of file f. */
  ghost predicate Outcome(lim: Limits, f: File, used: set<int>, c: int) {
    && (c != NO_COLOUR ==> lim.Low(f) <= c < lim.High(f) && c !in used)
    && (c == NO_COLOUR ==> forall r :: lim.Low(f) <= r < lim.High(f) ==> r in used)
  }

  lemma StaysBlocked(ns: seq<Node>, g: Graph, lim: Limits, x: nat, n: nat, c: int)
    requires x < |ns| && n < |ns| && ns[n].colour == NO_COLOUR && Blocked(ns, g, lim, x)
    ensures Blocked(ns[n := Coloured(ns[n], c)], g, lim, x)
  {
    var ns' := ns[n := Coloured(ns[n], c)];
    forall r | lim.Low(ns'[x].file) <= r < lim.High(ns'[x].file)
      ensures Taken(ns', g, x, r)
    {
      assert Taken(ns, g, x, r);
      var y: nat :| y < |ns| && (x, y) in g && ns[y].colour == r;
      assert ns'[y].colour == r;
    }
  }

  /** All colours used around a representative means all taken by its neighbours. */
  lemma UsedBlocks(ns: seq<Node>, rep: seq<nat>, g: Graph, lim: Limits, n: nat)
    requires Roots(rep, |ns|) && Lifted(rep, g) && n < |ns| && rep[n] == n
    requires Outcome(lim, ns[n].file, Used(ns, rep, g, n), NO_COLOUR)
    ensures Blocked(ns, g, lim, n)
  {
    forall r | lim.Low(ns[n].file) <= r < lim.High(ns[n].file)
      ensures Taken(ns, g, n, r)
    {
      assert r in Used(ns, rep, g, n);
      var m: nat :| m < |ns| && UsesColour(ns, rep, g, n, m) && ns[rep[m]].colour == r;
      assert (n, rep[m]) in g;
    }
  }

  lemma ChosenBlocked(start: seq<Node>, ns: seq<Node>, rep: seq<nat>, g: Graph, lim: Limits,
                      stack: seq<nat>, low: seq<bool>, top: nat, c: int, i: nat)
    requires SelectReady(start, ns, rep, g, lim, stack, low) && Chosen(ns, g, lim, stack, low, top) && top > 0
    requires Outcome(lim, ns[stack[top - 1]].file, Used(ns, rep, g, stack[top - 1]), c)
    requires top - 1 <= i < |stack| && stack[i] < |ns| && stack[top - 1] !in stack[top..]
    requires ns[stack[top - 1] := Coloured(ns[stack[top - 1]], c)][stack[i]].spilled
    ensures Blocked(ns[stack[top - 1] := Coloured(ns[stack[top - 1]], c)], g, lim, stack[i])
  {
    hide StackOk, Used, Lifted, Outcome, Blocked;
    StackHoldsRoots(start, ns, rep, g, lim, stack, low, top - 1);
    if i == top - 1 {
      UsedBlocks(ns, rep, g, lim, stack[i]);
    } else {
      assert stack[top..][i - top] == stack[i];
    }
    StaysBlocked(ns, g, lim, stack[i], stack[top - 1], c);
  }

  lemma NoSelfEdge(rep: seq<nat>, g: Graph, n: nat)
    requires Lifted(rep, g) && n < |rep| && rep[n] == n
    ensures (n, n) !in g
  {
  }

  lemma ChosenDiffers(start: seq<Node>, ns: seq<Node>, rep: seq<nat>, g: Graph, lim: Limits,
                      stack: seq<nat>, low: seq<bool>, top: nat, c: int)
    requires SelectReady(start, ns, rep, g, lim, stack, low) && Chosen(ns, g, lim, stack, low, top) && top > 0
    requires Outcome(lim, ns[stack[top - 1]].file, Used(ns, rep, g, stack[top - 1]), c)
    ensures var ns' := ns[stack[top - 1] := Coloured(ns[stack[top - 1]], c)];
            forall x, y :: (x, y) in g && x < |ns'| && y < |ns'| ==> Different(ns'[x], ns'[y])
  {
    hide StackOk, Used, Lifted, Blocked;
    var n := stack[top - 1];
    var ns' := ns[n := Coloured(ns[n], c)];
    StackHoldsRoots(start, ns, rep, g, lim, stack, low, top - 1);
    NoSelfEdge(rep, g, n);
    forall y: nat | (n, y) in g && y < |ns|
      ensures Different(ns'[n], ns'[y])
    {
      if ns[y].colour != NO_COLOUR {
        NeighbourColourUsed(start, ns, rep, g, lim, stack, low, top, y);
      }
    }
  }

  lemma ChosenStep(start: seq<Node>, ns: seq<Node>, rep: seq<nat>, g: Graph, lim: Limits,
                   stack: seq<nat>, low: seq<bool>, top: nat, c: int)
    requires SelectReady(start, ns, rep, g, lim, stack, low) && Chosen(ns, g, lim, stack, low, top) && top > 0
    requires Outcome(lim, ns[stack[top - 1]].file, Used(ns, rep, g, stack[top - 1]), c)
    ensures var n := stack[top - 1];
            Chosen(ns[n := Coloured(ns[n], c)], g, lim, stack, low, top - 1)
  {
    hide StackOk, Used, Lifted, Blocked, Different, Symmetric;
    var n := stack[top - 1];
    var ns' := ns[n := Coloured(ns[n], c)];
    DistinctTail(start, ns, g, lim, stack, low, top);
    ChosenDiffers(start, ns, rep, g, lim, stack, low, top, c);
    StackHoldsRoots(start, ns, rep, g, lim, stack, low, top - 1);
    if low[top - 1] {
      LowFindsColour(start, ns, rep, g, lim, stack, low, top);
    }
    forall i | top - 1 <= i < |stack| && ns'[stack[i]].spilled
      ensures Blocked(ns', g, lim, stack[i])
    {
      ChosenBlocked(start, ns, rep, g, lim, stack, low, top, c, i);
    }
  }

  lemma DistinctTail(start: seq<Node>, ns: seq<Node>, g: Graph, lim: Limits, stack: seq<nat>, low: seq<bool>, top: nat)
    requires StackOk(start, ns, g, lim, stack, low) && 0 < top <= |stack|
    ensures stack[top - 1..] == [stack[top - 1]] + stack[top..] && stack[top - 1] !in stack[top..]
  {
  }

  /** Everything but the alias links and the outcome of select is as it was. */
  ghost predicate SameButColour(a: seq<Node>, b: seq<Node>) {
    && |a| == |b|
    && (forall x :: 0 <= x < |a| ==> b[x] == a[x].(alias := b[x].alias, colour := b[x].colour, spilled := b[x].spilled))
  }

  ghost predicate Selecting(start: seq<Node>, ns: seq<Node>, rep: seq<nat>, rank: seq<nat>, rk: nat, g: Graph,
      lim: Limits, stack: seq<nat>, low: seq<bool>, top: nat)
  {
    && Forest(ns, rep, rank, rk) && Uniform(ns, g) && SameFiles(ns, rep)
    && SelectReady(start, ns, rep, g, lim, stack, low) && Chosen(ns, g, lim, stack, low, top)
  }

  lemma AliasFrame(start: seq<Node>, ns: seq<Node>, ns': seq<Node>, rep: seq<nat>, rank: seq<nat>, rk: nat, g: Graph,
      lim: Limits, stack: seq<nat>, low: seq<bool>, top: nat)
    requires Selecting(start, ns, rep, rank, rk, g, lim, stack, low, top)
    requires SameButAlias(ns, ns') && Forest(ns', rep, rank, rk)
    ensures Selecting(start, ns', rep, rank, rk, g, lim, stack, low, top)
  {
    hide StackOk, Forest, Lifted, Chosen, Uniform, SameFiles, Symmetric;
    StackOkFrame(start, ns, ns', g, lim, stack, low);
    ChosenFrame(ns, ns', g, lim, stack, low, top);
    FilesFrame(ns, ns', rep, g);
  }

  lemma ChosenFrame(ns: seq<Node>, ns': seq<Node>, g: Graph, lim: Limits, stack: seq<nat>, low: seq<bool>, top: nat)
    requires Chosen(ns, g, lim, stack, low, top) && SameButAlias(ns, ns')
    ensures Chosen(ns', g, lim, stack, low, top)
  {
    hide Blocked;
    forall i | top <= i < |stack| && ns'[stack[i]].spilled
      ensures Blocked(ns', g, lim, stack[i])
    {
      BlockedFrame(ns, ns', g, lim, stack[i]);
    }
  }

  lemma BlockedFrame(ns: seq<Node>, ns': seq<Node>, g: Graph, lim: Limits, x: nat)
    requires x < |ns| && SameButAlias(ns, ns') && Blocked(ns, g, lim, x)
    ensures Blocked(ns', g, lim, x)
  {
    forall r | lim.Low(ns[x].file) <= r < lim.High(ns[x].file)
      ensures Taken(ns', g, x, r)
    {
      assert Taken(ns, g, x, r);
      var y: nat :| y < |ns| && (x, y) in g && ns[y].colour == r;
      assert ns'[y].colour == r;
    }
  }

  lemma FilesFrame(ns: seq<Node>, ns': seq<Node>, rep: seq<nat>, g: Graph)
    requires Uniform(ns, g) && SameFiles(ns, rep)
    requires |ns'| == |ns| && forall x :: 0 <= x < |ns| ==> ns'[x].file == ns[x].file
    ensures Uniform(ns', g) && SameFiles(ns', rep)
  {
  }

  lemma ColourFrame(start: seq<Node>, ns: seq<Node>, rep: seq<nat>, rank: seq<nat>, rk: nat, g: Graph, lim: Limits,
                    stack: seq<nat>, low: seq<bool>, top: nat, c: int)
    requires Selecting(start, ns, rep, rank, rk, g, lim, stack, low, top) && top > 0
    requires top <= |stack| && stack[top - 1] < |ns| == |rep|
    requires Outcome(lim, ns[stack[top - 1]].file, Used(ns, rep, g, stack[top - 1]), c)
    ensures var n := stack[top - 1];
            Selecting(start, ns[n := Coloured(ns[n], c)], rep, rank, rk, g, lim, stack, low, top - 1)
  {
    hide StackOk, Forest, Lifted, Chosen, Outcome, Used, Uniform, SameFiles;
    var n := stack[top - 1];
    var ns' := ns[n := Coloured(ns[n], c)];
    ChosenStep(start, ns, rep, g, lim, stack, low, top, c);
    StackOkFrame(start, ns, ns', g, lim, stack, low);
    ForestByAlias(ns, ns', rep, rank, rk);
    FilesFrame(ns, ns', rep, g);
  }

  lemma SelectingParts(start: seq<Node>, ns: seq<Node>, rep: seq<nat>, rank: seq<nat>, rk: nat, g: Graph, lim: Limits,
                       stack: seq<nat>, low: seq<bool>, top: nat)
    requires Selecting(start, ns, rep, rank, rk, g, lim, stack, low, top)
    ensures Forest(ns, rep, rank, rk) && Uniform(ns, g) && SameFiles(ns, rep) && Roots(rep, |ns|)
    ensures forall i :: 0 <= i < |stack| ==> stack[i] < |ns|
  {
  }

  lemma UsedFrame(ns: seq<Node>, ns': seq<Node>, rep: seq<nat>, g: Graph, n: nat)
    requires Roots(rep, |ns|) && SameButAlias(ns, ns')
    ensures |ns'| == |ns| && Used(ns', rep, g, n) == Used(ns, rep, g, n)
  {
    SameUsed(ns, ns', rep, g, n);
  }

  /** The select loop: pop every node and colour it if its neighbours leave a colour free. */
  method Select(nodes: array<Node>, ifg: array2<bool>, lim: Limits, stack: seq<nat>, ghost low: seq<bool>,
      ghost start: seq<Node>, ghost rep: seq<nat>, ghost rank: seq<nat>, ghost rk: nat)
    requires ifg.Length0 == ifg.Length1 == nodes.Length
    requires Selecting(start, nodes[..], rep, rank, rk, Edges(ifg), lim, stack, low, |stack|)
    modifies nodes
    ensures Selecting(start, nodes[..], rep, rank, rk, Edges(ifg), lim, stack, low, 0)
    ensures SameButColour(old(nodes[..]), nodes[..])
  {
    hide Selecting, Edges, Used, Outcome;
    ghost var g := Edges(ifg);
    var top := |stack|;
    while top > 0
      invariant 0 <= top <= |stack|
      invariant Selecting(start, nodes[..], rep, rank, rk, g, lim, stack, low, top)
      invariant SameButColour(old(nodes[..]), nodes[..])
    {
      SelectOne(nodes, ifg, lim, stack, low, start, rep, rank, rk, top);
      top := top - 1;
    }
  }

  method SelectOne(nodes: array<Node>, ifg: array2<bool>, lim: Limits, stack: seq<nat>, ghost low: seq<bool>,
      ghost start: seq<Node>, ghost rep: seq<nat>, ghost rank: seq<nat>, ghost rk: nat, top: nat)
    requires ifg.Length0 == ifg.Length1 == nodes.Length && 0 < top <= |stack|
    requires Selecting(start, nodes[..], rep, rank, rk, Edges(ifg), lim, stack, low, top)
    modifies nodes
    ensures Selecting(start, nodes[..], rep, rank, rk, Edges(ifg), lim, stack, low, top - 1)
    ensures SameButColour(old(nodes[..]), nodes[..])
  {
    hide Selecting, Edges, Used, Forest, Uniform, SameFiles;
    ghost var ns, g := nodes[..], Edges(ifg);
    SelectingParts(start, ns, rep, rank, rk, g, lim, stack, low, top);
    var n := stack[top - 1];
    var used := UsedColours(nodes, ifg, n, rep, rank, rk);
    ghost var mid := nodes[..];
    AliasFrame(start, ns, mid, rep, rank, rk, g, lim, stack, low, top);
    UsedFrame(ns, mid, rep, g, n);
    var picked := FirstFree(used, lim.Low(nodes[n].file), lim.High(nodes[n].file));
    ColourFrame(start, mid, rep, rank, rk, g, lim, stack, low, top, picked);
    if picked != NO_COLOUR {
      nodes[n] := nodes[n].(colour := picked);
    } else {
      nodes[n] := nodes[n].(spilled := true);
    }
    assert nodes[..] == mid[n := Coloured(mid[n], picked)];
  }
}
