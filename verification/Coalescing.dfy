/** Copy coalescing: union-find over the nodes of the interference graph, with path halving, and
    the edges a merged node inherits. */
module Coalescing {
  import opened Registers

  const NO_COLOUR: int := 0xFFFF

  datatype Node = Node(file: File, degree: nat, cost: nat, colour: int, alias: nat, spilled: bool, inGraph: bool)

  /** Node x links to `alias` within a forest: rep gives the root of each node, rank grows along
      a link. */
  ghost predicate Linked(x: nat, alias: nat, rep: seq<nat>, rank: seq<nat>, top: nat) {
    && x < |rep| == |rank| && alias < |rep| && rep[x] < |rep| && rank[x] <= top
    && rep[alias] == rep[x] && rep[rep[x]] == rep[x]
    && (alias == x <==> rep[x] == x)
    && (alias != x ==> rank[x] < rank[alias])
  }

  ghost predicate Forest(ns: seq<Node>, rep: seq<nat>, rank: seq<nat>, top: nat) {
    && |rep| == |rank| == |ns|
    && (forall x :: 0 <= x < |ns| ==> Linked(x, ns[x].alias, rep, rank, top))
  }

  ghost predicate SameButAlias(a: seq<Node>, b: seq<Node>) {
    |a| == |b| && forall i :: 0 <= i < |a| ==> b[i] == a[i].(alias := b[i].alias)
  }

  ghost function Relinked(ns: seq<Node>, n: nat, alias: nat): seq<Node>
    requires n < |ns|
  {
    ns[n := ns[n].(alias := alias)]
  }

  lemma LinkOf(ns: seq<Node>, rep: seq<nat>, rank: seq<nat>, top: nat, n: nat)
    requires Forest(ns, rep, rank, top) && n < |ns|
    ensures |rep| == |rank| == |ns| && Linked(n, ns[n].alias, rep, rank, top)
  {
  }

  /** Replacing a link by the grandparent keeps the forest and every root. */
  lemma HalvingKeepsForest(ns: seq<Node>, was: seq<Node>, rep: seq<nat>, rank: seq<nat>, top: nat, n: nat)
    requires Forest(ns, rep, rank, top) && n < |ns| && ns[n].alias != n && SameButAlias(was, ns)
    ensures ns[n].alias < |ns| == |rep| == |rank|
    ensures var g := ns[ns[n].alias].alias;
            && Forest(Relinked(ns, n, g), rep, rank, top) && SameButAlias(was, Relinked(ns, n, g))
            && g < |ns| && rep[g] == rep[n] && rank[n] < rank[g] <= top
  {
    LinkOf(ns, rep, rank, top, n);
    LinkOf(ns, rep, rank, top, ns[n].alias);
    LinkOf(ns, rep, rank, top, ns[ns[n].alias].alias);
    assert Linked(n, ns[ns[n].alias].alias, rep, rank, top);
    hide Linked;
  }

  /** ra_find: the representative, halving the path on the way. */
  method Find(nodes: array<Node>, start: nat, ghost rep: seq<nat>, ghost rank: seq<nat>, ghost top: nat)
    returns (n: nat)
    requires Forest(nodes[..], rep, rank, top) && start < nodes.Length
    modifies nodes
    ensures n < nodes.Length == |rep| && n == rep[start]
    ensures Forest(nodes[..], rep, rank, top)
    ensures SameButAlias(old(nodes[..]), nodes[..])
  {
    n := start;
    hide Forest;
    LinkOf(nodes[..], rep, rank, top, n);
    while nodes[n].alias != n
      invariant n < nodes.Length == |rep| == |rank| && Forest(nodes[..], rep, rank, top)
      invariant start < |rep| && rep[n] == rep[start] && rank[n] <= top
      invariant nodes[n].alias == n <==> rep[n] == n
      invariant SameButAlias(old(nodes[..]), nodes[..])
      decreases top - rank[n]
    {
      ghost var before := nodes[..];
      HalvingKeepsForest(before, old(nodes[..]), rep, rank, top, n);
      var g := nodes[nodes[n].alias].alias;
      nodes[n] := nodes[n].(alias := g);
      assert nodes[..] == Relinked(before, n, g);
      n := g;
      LinkOf(nodes[..], rep, rank, top, n);
    }
  }

  // ---- Edges between representatives ----

  type Graph = set<(nat, nat)>

  ghost predicate Symmetric(g: Graph) {
    forall u, v :: (u, v) in g ==> (v, u) in g
  }

  /** Edges join nodes of one file. */
  ghost predicate Uniform(ns: seq<Node>, g: Graph) {
    forall u, v :: (u, v) in g ==> u < |ns| && v < |ns| && ns[u].file == ns[v].file
  }

  /** Every original edge is an edge between two different representatives. */
  ghost predicate Covered(rep: seq<nat>, orig: Graph, g: Graph) {
    forall x, y :: (x, y) in orig ==>
      x < |rep| && y < |rep| && rep[x] != rep[y] && (rep[x], rep[y]) in g
  }

  /** A representative joined to a node is joined to that node's representative. */
  ghost predicate Lifted(rep: seq<nat>, g: Graph) {
    forall x, y :: (x, y) in g && x < |rep| && y < |rep| && rep[x] == x ==> rep[y] != x && (x, rep[y]) in g
  }

  /** x and y stand for two nodes that were joined at the start. */
  ghost predicate Joined(rep: seq<nat>, orig: Graph, x: nat, y: nat) {
    exists u: nat, v: nat :: u < |rep| && v < |rep| && rep[u] == x && rep[v] == y && (u, v) in orig
  }

  /** Every edge between two representatives comes from an original one. */
  ghost predicate Grounded(rep: seq<nat>, orig: Graph, g: Graph) {
    forall x, y :: (x, y) in g && x < |rep| && y < |rep| && rep[x] == x && rep[y] == y ==> Joined(rep, orig, x, y)
  }

  ghost predicate SameFiles(ns: seq<Node>, rep: seq<nat>) {
    |rep| == |ns| && forall x :: 0 <= x < |ns| && rep[x] < |ns| ==> ns[rep[x]].file == ns[x].file
  }

  ghost predicate Consistent(ns: seq<Node>, rep: seq<nat>, rank: seq<nat>, top: nat, orig: Graph, g: Graph) {
    && Forest(ns, rep, rank, top)
    && Symmetric(g) && Uniform(ns, g)
    && Covered(rep, orig, g) && Grounded(rep, orig, g) && Lifted(rep, g) && SameFiles(ns, rep)
  }

  /** The representatives after b is merged into a. */
  ghost function Merged(rep: seq<nat>, a: nat, b: nat): (r: seq<nat>)
    ensures |r| == |rep| && forall x :: 0 <= x < |rep| ==> r[x] == if rep[x] == b then a else rep[x]
  {
    seq(|rep|, x requires 0 <= x < |rep| => if rep[x] == b then a else rep[x])
  }

  /** v is a representative other than a and b that b is joined to, and u is a: an edge the merge
      adds, in one direction. */
  ghost predicate Inherited(rep: seq<nat>, g: Graph, a: nat, b: nat, u: nat, v: nat) {
    u == a && v < |rep| && v != a && v != b && rep[v] == v && (b, v) in g
  }

  /** The edges once the first n nodes have been looked at. */
  ghost predicate InheritsUpTo(rep: seq<nat>, g: Graph, g': Graph, a: nat, b: nat, n: nat) {
    && g <= g' && Symmetric(g')
    && (forall k :: 0 <= k < n && Inherited(rep, g, a, b, a, k) ==> (a, k) in g')
    && (forall u, v :: (u, v) in g' - g ==>
          (v < n && Inherited(rep, g, a, b, u, v)) || (u < n && Inherited(rep, g, a, b, v, u)))
  }

  /** a has inherited b's edges to all the other representatives. */
  ghost predicate Inherits(rep: seq<nat>, g: Graph, g': Graph, a: nat, b: nat) {
    InheritsUpTo(rep, g, g', a, b, |rep|)
  }

  /** The neighbours new to a among the first n nodes. */
  ghost function Gained(rep: seq<nat>, g: Graph, a: nat, b: nat, n: nat): set<nat> {
    set k: nat | k < n && Inherited(rep, g, a, b, a, k) && (a, k) !in g
  }

  lemma GainedStep(rep: seq<nat>, g: Graph, now: Graph, a: nat, b: nat, k: nat)
    requires InheritsUpTo(rep, g, now, a, b, k) && k < |rep| && a != b
    ensures |Gained(rep, g, a, b, k + 1)| ==
            |Gained(rep, g, a, b, k)| + if Inherited(rep, now, a, b, a, k) && (a, k) !in now then 1 else 0
  {
    assert (b, k) in now - g ==> k == a;
    assert (a, k) in now - g ==> k == a;
    if Inherited(rep, g, a, b, a, k) && (a, k) !in g {
      assert Gained(rep, g, a, b, k + 1) == Gained(rep, g, a, b, k) + {k};
    } else {
      assert Gained(rep, g, a, b, k + 1) == Gained(rep, g, a, b, k);
    }
  }

  lemma InheritStep(rep: seq<nat>, g: Graph, now: Graph, a: nat, b: nat, k: nat, next: Graph)
    requires InheritsUpTo(rep, g, now, a, b, k) && k < |rep| && a != b && Symmetric(g)
    requires next == if Inherited(rep, now, a, b, a, k) then now + {(a, k), (k, a)} else now
    ensures InheritsUpTo(rep, g, next, a, b, k + 1)
  {
    assert (b, k) in now - g ==> k == a;
    assert Inherited(rep, now, a, b, a, k) ==> Inherited(rep, g, a, b, a, k);
    assert Inherited(rep, g, a, b, a, k) ==> Inherited(rep, now, a, b, a, k);
  }

  lemma MergeCovers(ns: seq<Node>, rep: seq<nat>, orig: Graph, g: Graph, g': Graph, a: nat, b: nat)
    requires |rep| == |ns| && a < |ns| && b < |ns| && a != b && rep[a] == a && rep[b] == b
    requires forall x :: 0 <= x < |ns| ==> rep[x] < |ns| && rep[rep[x]] == rep[x]
    requires Symmetric(g) && Covered(rep, orig, g) && (a, b) !in g && Inherits(rep, g, g', a, b)
    ensures Covered(Merged(rep, a, b), orig, g')
  {
    var rep' := Merged(rep, a, b);
    forall x, y | (x, y) in orig
      ensures x < |rep| && y < |rep| && rep'[x] != rep'[y] && (rep'[x], rep'[y]) in g'
    {
      assert (rep[x], rep[y]) in g && (rep[y], rep[x]) in g;
      if rep[x] == b {
        assert Inherited(rep, g, a, b, a, rep[y]);
      } else if rep[y] == b {
        assert Inherited(rep, g, a, b, a, rep[x]);
      }
    }
  }

  lemma MergeLifts(ns: seq<Node>, rep: seq<nat>, g: Graph, g': Graph, a: nat, b: nat)
    requires |rep| == |ns| && a < |ns| && b < |ns| && a != b && rep[a] == a && rep[b] == b
    requires forall x :: 0 <= x < |ns| ==> rep[x] < |ns| && rep[rep[x]] == rep[x]
    requires Symmetric(g) && Lifted(rep, g) && (a, b) !in g && Inherits(rep, g, g', a, b)
    ensures Lifted(Merged(rep, a, b), g')
  {
    var rep' := Merged(rep, a, b);
    forall x, y | (x, y) in g' && x < |rep'| && y < |rep'| && rep'[x] == x
      ensures rep'[y] != x && (x, rep'[y]) in g'
    {
      assert rep[x] == x && x != b;
      if (x, y) in g {
        assert rep[y] != x && (x, rep[y]) in g;
        if rep[y] == b {
          assert x != a;
          assert Inherited(rep, g, a, b, a, x);
        }
      } else {
        assert (x, y) in g' - g;
      }
    }
  }

  lemma MergeGrounds(ns: seq<Node>, rep: seq<nat>, orig: Graph, g: Graph, g': Graph, a: nat, b: nat)
    requires |rep| == |ns| && a < |ns| && b < |ns| && a != b && rep[a] == a && rep[b] == b
    requires Symmetric(g) && Grounded(rep, orig, g) && Inherits(rep, g, g', a, b)
    ensures Grounded(Merged(rep, a, b), orig, g')
  {
    var rep' := Merged(rep, a, b);
    forall x, y | (x, y) in g' && x < |rep'| && y < |rep'| && rep'[x] == x && rep'[y] == y
      ensures Joined(rep', orig, x, y)
    {
      var x0 := if (x, y) in g then x else if Inherited(rep, g, a, b, x, y) then b else x;
      var y0 := if (x, y) in g then y else if Inherited(rep, g, a, b, x, y) then y else b;
      assert (x, y) in g || (x, y) in g' - g;
      assert (x0, y0) in g && Joined(rep, orig, x0, y0);
      var u: nat, v: nat :| u < |rep| && v < |rep| && rep[u] == x0 && rep[v] == y0 && (u, v) in orig;
      assert rep'[u] == x && rep'[v] == y;
    }
  }

  lemma MergeForest(ns: seq<Node>, ns': seq<Node>, rep: seq<nat>, rank: seq<nat>, top: nat, a: nat, b: nat)
    requires Forest(ns, rep, rank, top) && a < |ns| && b < |ns| && a != b && rep[a] == a && rep[b] == b
    requires |ns'| == |ns| && ns'[b].alias == a && forall x :: 0 <= x < |ns| && x != b ==> ns'[x].alias == ns[x].alias
    ensures Forest(ns', Merged(rep, a, b), rank[a := top + 1], top + 1)
  {
    forall x | 0 <= x < |ns|
      ensures Linked(x, ns'[x].alias, Merged(rep, a, b), rank[a := top + 1], top + 1)
    {
      LinkOf(ns, rep, rank, top, x);
      LinkOf(ns, rep, rank, top, ns[x].alias);
      LinkOf(ns, rep, rank, top, a);
      LinkOf(ns, rep, rank, top, rep[x]);
    }
  }

  // ---- ra_coalesce ----

  /** The edges of the matrix as a set of pairs. */
  ghost function Edges(ifg: array2<bool>): (g: Graph)
    reads ifg
  {
    set u: nat, v: nat | u < ifg.Length0 && v < ifg.Length1 && ifg[u, v] :: (u, v)
  }

  ghost predicate SameButLinks(a: seq<Node>, b: seq<Node>) {
    |a| == |b| && forall i :: 0 <= i < |a| ==> b[i] == a[i].(alias := b[i].alias, degree := b[i].degree)
  }

  lemma MergeUniform(ns: seq<Node>, ns': seq<Node>, rep: seq<nat>, g: Graph, g': Graph, a: nat, b: nat)
    requires Uniform(ns, g) && a < |ns| && b < |ns| && ns[a].file == ns[b].file && |rep| == |ns|
    requires |ns'| == |ns| && forall x :: 0 <= x < |ns| ==> ns'[x].file == ns[x].file
    requires Inherits(rep, g, g', a, b)
    ensures Uniform(ns', g')
  {
    forall u, v | (u, v) in g'
      ensures u < |ns'| && v < |ns'| && ns'[u].file == ns'[v].file
    {
      if (u, v) !in g {
        assert (u, v) in g' - g;
      }
    }
  }

  lemma MergeFiles(ns: seq<Node>, ns': seq<Node>, rep: seq<nat>, a: nat, b: nat)
    requires SameFiles(ns, rep) && a < |ns| && b < |ns| && ns[a].file == ns[b].file
    requires forall x :: 0 <= x < |ns| ==> rep[x] < |ns|
    requires |ns'| == |ns| && forall x :: 0 <= x < |ns| ==> ns'[x].file == ns[x].file
    ensures SameFiles(ns', Merged(rep, a, b))
  {
  }

  lemma RootsOf(ns: seq<Node>, rep: seq<nat>, rank: seq<nat>, top: nat)
    requires Forest(ns, rep, rank, top)
    ensures |rep| == |ns| && forall x :: 0 <= x < |ns| ==> rep[x] < |ns| && rep[rep[x]] == rep[x]
  {
    forall x | 0 <= x < |ns|
      ensures rep[x] < |ns| && rep[rep[x]] == rep[x]
    {
      LinkOf(ns, rep, rank, top, x);
    }
  }

  lemma MergeConsistent(ns: seq<Node>, ns': seq<Node>, rep: seq<nat>, rank: seq<nat>, top: nat, rank': seq<nat>,
      top': nat, orig: Graph, g: Graph, g': Graph, a: nat, b: nat)
    requires Consistent(ns, rep, rank, top, orig, g) && Forest(ns', Merged(rep, a, b), rank', top')
    requires |rep| == |ns| && a < |ns| && b < |ns| && a != b && rep[a] == a && rep[b] == b
    requires ns[a].file == ns[b].file && (a, b) !in g
    requires |ns'| == |ns| && forall x :: 0 <= x < |ns| ==> ns'[x].file == ns[x].file
    requires Inherits(rep, g, g', a, b)
    ensures Consistent(ns', Merged(rep, a, b), rank', top', orig, g')
  {
    hide Covered, Lifted, Grounded, Forest, Uniform, Symmetric, SameFiles;
    RootsOf(ns, rep, rank, top);
    MergeCovers(ns, rep, orig, g, g', a, b);
    MergeGrounds(ns, rep, orig, g, g', a, b);
    MergeLifts(ns, rep, g, g', a, b);
    MergeUniform(ns, ns', rep, g, g', a, b);
    MergeFiles(ns, ns', rep, a, b);
  }

  /** One iteration of the edge-copying loop. */
  method CopyEdge(nodes: array<Node>, ifg: array2<bool>, a: nat, b: nat, k: nat,
                  ghost rep: seq<nat>, ghost rank: seq<nat>, ghost top: nat)
    requires ifg.Length0 == ifg.Length1 == nodes.Length && a < nodes.Length && b < nodes.Length && k < nodes.Length
    requires Forest(nodes[..], rep, rank, top) && Symmetric(Edges(ifg))
    modifies nodes, ifg
    ensures Forest(nodes[..], rep, rank, top)
    ensures SameButLinks(old(nodes[..]), nodes[..])
    ensures k < |rep| && var now := old(Edges(ifg));
            Edges(ifg) == if k != a && k != b && rep[k] == k && (b, k) in now then now + {(a, k), (k, a)} else now
    ensures var now := old(Edges(ifg));
            CountedUp(old(nodes[..]), nodes[..], a,
                      if k != a && k != b && rep[k] == k && (b, k) in now && (a, k) !in now then 1 else 0)
  {
    hide Forest;
    LinkOf(nodes[..], rep, rank, top, k);
    if k != a && k != b {
      var r := Find(nodes, k, rep, rank, top);
      if r == k && ifg[b, k] {
        if !ifg[a, k] {
          ifg[a, k] := true;
          ifg[k, a] := true;
          ghost var before := nodes[..];
          nodes[a] := nodes[a].(degree := nodes[a].degree + 1);
          ForestByAlias(before, nodes[..], rep, rank, top);
        }
      }
    }
  }

  /** Only a's degree has changed, by d. */
  ghost predicate CountedUp(ns: seq<Node>, ns': seq<Node>, a: nat, d: nat) {
    |ns| == |ns'| && forall x :: 0 <= x < |ns| ==> ns'[x].degree == if x == a then ns[x].degree + d else ns[x].degree
  }

  lemma ForestByAlias(ns: seq<Node>, ns': seq<Node>, rep: seq<nat>, rank: seq<nat>, top: nat)
    requires Forest(ns, rep, rank, top) && |ns'| == |ns| && forall x :: 0 <= x < |ns| ==> ns'[x].alias == ns[x].alias
    ensures Forest(ns', rep, rank, top)
  {
    hide Linked;
  }

  lemma ConsistentParts(ns: seq<Node>, rep: seq<nat>, rank: seq<nat>, top: nat, orig: Graph, g: Graph)
    requires Consistent(ns, rep, rank, top, orig, g)
    ensures Forest(ns, rep, rank, top) && Symmetric(g) && |rep| == |rank| == |ns|
  {
  }

  /** Merge b into a: relink b, then copy its edges to every other representative. */
  method Coalesce(nodes: array<Node>, ifg: array2<bool>, a: nat, b: nat,
                  ghost rep: seq<nat>, ghost rank: seq<nat>, ghost top: nat, ghost orig: Graph)
    returns (ghost rep': seq<nat>, ghost rank': seq<nat>, ghost top': nat)
    requires ifg.Length0 == ifg.Length1 == nodes.Length == |rep|
    requires Consistent(nodes[..], rep, rank, top, orig, Edges(ifg))
    requires a < nodes.Length && b < nodes.Length && a != b && rep[a] == a && rep[b] == b
    requires nodes[a].file == nodes[b].file && !ifg[a, b]
    modifies nodes, ifg
    ensures rep' == Merged(rep, a, b)
    ensures Consistent(nodes[..], rep', rank', top', orig, Edges(ifg))
    ensures Absorbed(old(nodes[..]), nodes[..], b)
    ensures Inherits(rep, old(Edges(ifg)), Edges(ifg), a, b)
    ensures CountedUp(old(nodes[..]), nodes[..], a, |Gained(rep, old(Edges(ifg)), a, b, |rep|)|)
  {
    hide Consistent, Forest, InheritsUpTo, Symmetric, Inherits;
    ghost var ns, g := nodes[..], Edges(ifg);
    ConsistentParts(ns, rep, rank, top, orig, g);
    rep', rank', top' := Merged(rep, a, b), rank[a := top + 1], top + 1;
    nodes[b] := nodes[b].(alias := a);
    MergeForest(ns, nodes[..], rep, rank, top, a, b);
    CopyEdges(nodes, ifg, a, b, rep, rep', rank', top');
    ghost var linked := nodes[..];
    nodes[b] := nodes[b].(inGraph := false);
    ForestByAlias(linked, nodes[..], rep', rank', top');
    MergeConsistent(ns, nodes[..], rep, rank, top, rank', top', orig, g, Edges(ifg), a, b);
  }

  /** Nothing but links, degrees and the absorbed node's membership has changed. */
  ghost predicate Absorbed(ns: seq<Node>, ns': seq<Node>, b: nat) {
    && |ns'| == |ns|
    && (forall x :: 0 <= x < |ns| ==>
          ns'[x] == ns[x].(alias := ns'[x].alias, degree := ns'[x].degree, inGraph := ns[x].inGraph && x != b))
  }

  lemma NothingCopied(ns: seq<Node>, rep: seq<nat>, g: Graph, a: nat, b: nat)
    requires Symmetric(g)
    ensures InheritsUpTo(rep, g, g, a, b, 0) && CountedUp(ns, ns, a, |Gained(rep, g, a, b, 0)|)
  {
    assert Gained(rep, g, a, b, 0) == {};
  }

  lemma CopyStep(ns: seq<Node>, mid: seq<Node>, after: seq<Node>, rep: seq<nat>, g: Graph, now: Graph, next: Graph,
      a: nat, b: nat, k: nat)
    requires InheritsUpTo(rep, g, now, a, b, k) && k < |rep| && a != b && b < |rep| && Symmetric(g) && rep[b] == b
    requires next == if k != a && k != b && Merged(rep, a, b)[k] == k && (b, k) in now then now + {(a, k), (k, a)}
                     else now
    requires CountedUp(ns, mid, a, |Gained(rep, g, a, b, k)|)
    requires CountedUp(mid, after, a,
                       if k != a && k != b && Merged(rep, a, b)[k] == k && (b, k) in now && (a, k) !in now
                       then 1 else 0)
    ensures Symmetric(next)
    ensures InheritsUpTo(rep, g, next, a, b, k + 1) && CountedUp(ns, after, a, |Gained(rep, g, a, b, k + 1)|)
  {
    hide Gained, Symmetric;
    InheritStep(rep, g, now, a, b, k, next);
    GainedStep(rep, g, now, a, b, k);
  }

  /** The edge-copying loop. */
  method CopyEdges(nodes: array<Node>, ifg: array2<bool>, a: nat, b: nat,
                   ghost rep: seq<nat>, ghost rep': seq<nat>, ghost rank': seq<nat>, ghost top': nat)
    requires ifg.Length0 == ifg.Length1 == nodes.Length == |rep| && a < nodes.Length && b < nodes.Length && a != b
    requires rep' == Merged(rep, a, b) && rep[b] == b
    requires Forest(nodes[..], rep', rank', top') && Symmetric(Edges(ifg))
    modifies nodes, ifg
    ensures Forest(nodes[..], rep', rank', top')
    ensures SameButLinks(old(nodes[..]), nodes[..])
    ensures Inherits(rep, old(Edges(ifg)), Edges(ifg), a, b)
    ensures CountedUp(old(nodes[..]), nodes[..], a, |Gained(rep, old(Edges(ifg)), a, b, |rep|)|)
  {
    hide Forest, InheritsUpTo, Gained, CountedUp, Edges, Symmetric;
    ghost var ns, g := nodes[..], Edges(ifg);
    NothingCopied(ns, rep, g, a, b);
    for k := 0 to nodes.Length
      invariant Forest(nodes[..], rep', rank', top')
      invariant SameButLinks(ns, nodes[..])
      invariant InheritsUpTo(rep, g, Edges(ifg), a, b, k) && Symmetric(Edges(ifg))
      invariant CountedUp(ns, nodes[..], a, |Gained(rep, g, a, b, k)|)
    {
      ghost var now, mid := Edges(ifg), nodes[..];
      CopyEdge(nodes, ifg, a, b, k, rep', rank', top');
      CopyStep(ns, mid, nodes[..], rep, g, now, Edges(ifg), a, b, k);
    }
  }
}
