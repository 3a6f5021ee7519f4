/** Dominance in a flow graph, and what one update of the immediate-dominator table does to it. */
module Dominance {

  const NONE: int := 0xFFFF

  /** A flow graph: the successors of each block, block 0 the entry. */
  type Graph = seq<seq<nat>>

  ghost predicate Valid(g: Graph) {
    |g| > 0 && forall b, i :: 0 <= b < |g| && 0 <= i < |g[b]| ==> g[b][i] < |g|
  }

  /** p follows edges of the graph. */
  ghost predicate Walk(g: Graph, p: seq<nat>) {
    && |p| > 0
    && (forall i :: 0 <= i < |p| ==> p[i] < |g|)
    && (forall i :: 0 <= i < |p| - 1 ==> p[i + 1] in g[p[i]])
  }

  /** p runs from the entry to b. */
  ghost predicate PathTo(g: Graph, p: seq<nat>, b: nat) {
    Walk(g, p) && p[0] == 0 && p[|p| - 1] == b
  }

  ghost predicate Reachable(g: Graph, b: nat) {
    exists p :: PathTo(g, p, b)
  }

  /** Every path from the entry to b passes through d. */
  ghost predicate Dominates(g: Graph, d: nat, b: nat) {
    forall p :: PathTo(g, p, b) ==> d in p
  }

  lemma ExtendPath(g: Graph, p: seq<nat>, b: nat, s: nat)
    requires PathTo(g, p, b) && s < |g| && s in g[b]
    ensures PathTo(g, p + [s], s)
  {
  }

  lemma ReachableSuccessor(g: Graph, b: nat, s: nat)
    requires b < |g| && Reachable(g, b) && s < |g| && s in g[b]
    ensures Reachable(g, s)
  {
    var p :| PathTo(g, p, b);
    ExtendPath(g, p, b, s);
  }

  lemma EntryReachable(g: Graph)
    requires |g| > 0
    ensures Reachable(g, 0)
  {
    assert PathTo(g, [0], 0);
  }

  /** A proper dominator of b dominates every predecessor of b. */
  lemma DominatesPredecessor(g: Graph, d: nat, p: nat, b: nat)
    requires p < |g| && b < |g| && b in g[p] && d != b && Dominates(g, d, b)
    ensures Dominates(g, d, p)
  {
    forall w | PathTo(g, w, p)
      ensures d in w
    {
      ExtendPath(g, w, p, b);
      assert d in w + [b];
    }
  }

  // ---- The table of immediate dominators ----

  /** b has an entry in the table. */
  predicate Known(idom: seq<int>, b: nat) {
    b < |idom| && idom[b] != NONE
  }

  /** Following the table from a known block goes to known blocks of ever smaller number, ending at
      the entry. */
  ghost predicate Tree(idom: seq<int>, rpo: seq<nat>) {
    && 0 < |idom| == |rpo| && idom[0] == 0
    && (forall b: nat :: b != 0 && Known(idom, b) ==>
          0 <= idom[b] < |idom| && Known(idom, idom[b]) && rpo[idom[b]] < rpo[b])
  }

  /** The blocks on the way from b up to the entry. */
  ghost function Chain(idom: seq<int>, rpo: seq<nat>, b: nat): set<nat>
    requires Tree(idom, rpo) && Known(idom, b)
    decreases rpo[b]
  {
    if b == 0 then {0} else {b} + Chain(idom, rpo, idom[b])
  }

  lemma {:induction false} ChainMembers(idom: seq<int>, rpo: seq<nat>, b: nat)
    requires Tree(idom, rpo) && Known(idom, b)
    ensures b in Chain(idom, rpo, b) && 0 in Chain(idom, rpo, b)
    ensures forall x :: x in Chain(idom, rpo, b) ==> Known(idom, x) && rpo[x] <= rpo[b] && (rpo[x] == rpo[b] ==> x == b)
    decreases rpo[b]
  {
    if b != 0 {
      ChainMembers(idom, rpo, idom[b]);
    }
  }

  lemma {:induction false} ChainNested(idom: seq<int>, rpo: seq<nat>, b: nat, x: nat)
    requires Tree(idom, rpo) && Known(idom, b) && x in Chain(idom, rpo, b)
    ensures Known(idom, x) && Chain(idom, rpo, x) <= Chain(idom, rpo, b)
    decreases rpo[b]
  {
    ChainMembers(idom, rpo, b);
    if x != b {
      ChainNested(idom, rpo, idom[b], x);
    }
  }

  // ---- Changing one entry ----

  ghost function Cut(idom: seq<int>, rpo: seq<nat>, b: nat, new': nat, c: nat): set<nat>
    requires Tree(idom, rpo) && Known(idom, c) && Known(idom, new')
    requires b < |idom|
  {
    if b !in Chain(idom, rpo, c) then Chain(idom, rpo, c)
    else if !Known(idom, b) then {}
    else (Chain(idom, rpo, c) - Chain(idom, rpo, b)) + {b} + Chain(idom, rpo, new')
  }

  lemma UpdateTree(idom: seq<int>, rpo: seq<nat>, b: nat, x: nat)
    requires Tree(idom, rpo) && 0 < b < |idom| && Known(idom, x) && rpo[x] < rpo[b] && x != NONE
    ensures Tree(idom[b := x], rpo)
    ensures forall c :: Known(idom, c) ==> Known(idom[b := x], c)
  {
  }

  /** The chain of a block below b is redirected at b; any other chain is untouched. */
  lemma {:induction false} UpdateChain(idom: seq<int>, rpo: seq<nat>, b: nat, x: nat, c: nat)
    requires Tree(idom, rpo) && 0 < b < |idom| && Known(idom, x) && rpo[x] < rpo[b] && x != NONE
    requires Known(idom, c)
    ensures Tree(idom[b := x], rpo) && Known(idom[b := x], c)
    ensures Chain(idom[b := x], rpo, c) == Cut(idom, rpo, b, x, c)
    decreases rpo[c]
  {
    UpdateTree(idom, rpo, b, x);
    var idom' := idom[b := x];
    ChainMembers(idom, rpo, c);
    ChainMembers(idom, rpo, x);
    if c == b {
      UpdateChain(idom, rpo, b, x, x);
    } else if c != 0 {
      UpdateChain(idom, rpo, b, x, idom[c]);
      if b in Chain(idom, rpo, c) {
        ChainMembers(idom, rpo, b);
      }
    }
  }

  lemma NewChain(idom: seq<int>, rpo: seq<nat>, b: nat, x: nat)
    requires Tree(idom, rpo) && 0 < b < |idom| && Known(idom, x) && rpo[x] < rpo[b] && x != NONE
    ensures Tree(idom[b := x], rpo) && Known(idom[b := x], b)
    ensures Chain(idom[b := x], rpo, b) == {b} + Chain(idom, rpo, x)
  {
    UpdateTree(idom, rpo, b, x);
    UpdateChain(idom, rpo, b, x, x);
    ChainMembers(idom, rpo, x);
  }

  // ---- The invariant of the iteration ----

  /** A walk from x to c that stays above x in the numbering once it has left. */
  ghost predicate Above(g: Graph, rpo: seq<nat>, x: nat, c: nat)
    requires |rpo| == |g|
  {
    exists w :: AboveVia(g, rpo, w, x, c)
  }

  ghost predicate AboveVia(g: Graph, rpo: seq<nat>, w: seq<nat>, x: nat, c: nat)
    requires |rpo| == |g|
  {
    Walk(g, w) && w[0] == x && w[|w| - 1] == c && forall i :: 1 <= i < |w| ==> rpo[w[i]] > rpo[x]
  }

  /** Every known block is reachable, is reached from its table entry by a walk above that entry,
      and has all its dominators on its chain. */
  ghost predicate Inv(g: Graph, idom: seq<int>, rpo: seq<nat>) {
    && Valid(g) && Tree(idom, rpo) && |idom| == |g| <= NONE
    && (forall c: nat :: Known(idom, c) ==> Reachable(g, c))
    && (forall c: nat :: c != 0 && Known(idom, c) ==> Above(g, rpo, idom[c], c))
    && (forall c: nat, d: nat :: Known(idom, c) && Dominates(g, d, c) ==> d in Chain(idom, rpo, c))
  }

  lemma AboveTransitive(g: Graph, rpo: seq<nat>, x: nat, y: nat, z: nat)
    requires |rpo| == |g| && x < |g| && y < |g| && rpo[x] <= rpo[y] && Above(g, rpo, x, y) && Above(g, rpo, y, z)
    ensures Above(g, rpo, x, z)
  {
    var u :| AboveVia(g, rpo, u, x, y);
    var v :| AboveVia(g, rpo, v, y, z);
    var w := u + v[1..];
    forall i | 0 <= i < |w| - 1
      ensures w[i + 1] in g[w[i]]
    {
      if i >= |u| - 1 {
        assert w[i] == v[i - (|u| - 1)] && w[i + 1] == v[i + 1 - (|u| - 1)];
      }
    }
    forall i | 1 <= i < |w|
      ensures rpo[w[i]] > rpo[x]
    {
      if i >= |u| {
        assert w[i] == v[i - (|u| - 1)];
      }
    }
    assert AboveVia(g, rpo, w, x, z);
  }

  lemma AboveStep(g: Graph, rpo: seq<nat>, x: nat, p: nat, b: nat)
    requires Valid(g) && |rpo| == |g| && x < |g| && p < |g| && b < |g| && Above(g, rpo, x, p)
    requires b in g[p] && rpo[b] > rpo[x]
    ensures Above(g, rpo, x, b)
  {
    var u :| AboveVia(g, rpo, u, x, p);
    assert AboveVia(g, rpo, u + [b], x, b);
  }

  lemma {:induction false} AboveChain(g: Graph, idom: seq<int>, rpo: seq<nat>, c: nat, x: nat)
    requires Inv(g, idom, rpo) && Known(idom, c) && x in Chain(idom, rpo, c)
    ensures x < |g| && Above(g, rpo, x, c)
    decreases rpo[c]
  {
    ChainMembers(idom, rpo, c);
    if x == c {
      assert AboveVia(g, rpo, [c], c, c);
    } else {
      AboveChain(g, idom, rpo, idom[c], x);
      ChainMembers(idom, rpo, idom[c]);
      AboveTransitive(g, rpo, x, idom[c], c);
    }
  }

  /** A walk above b, glued to a path that reaches b without d, avoids d when d is below b. */
  lemma DominatorOfBelow(g: Graph, rpo: seq<nat>, d: nat, b: nat, c: nat)
    requires |rpo| == |g| && b < |g| && d < |g| && rpo[d] < rpo[b]
    requires Above(g, rpo, b, c) && Dominates(g, d, c)
    ensures Dominates(g, d, b)
  {
    var v :| AboveVia(g, rpo, v, b, c);
    forall u | PathTo(g, u, b)
      ensures d in u
    {
      var w := u + v[1..];
      forall i | 0 <= i < |w| - 1
        ensures w[i + 1] in g[w[i]]
      {
        if i >= |u| - 1 {
          assert w[i] == v[i - (|u| - 1)] && w[i + 1] == v[i + 1 - (|u| - 1)];
        }
      }
      assert PathTo(g, w, c);
      assert forall j :: 1 <= j < |v| ==> v[j] != d;
      assert d in w && d !in v[1..];
    }
  }

  // ---- The update ----

  predicate Pred(g: Graph, p: nat, b: nat) {
    p < |g| && b in g[p]
  }

  /** x is the meeting point of the chains of b's known predecessors. */
  ghost predicate Meets(g: Graph, idom: seq<int>, rpo: seq<nat>, b: nat, x: nat)
    requires Tree(idom, rpo)
  {
    && Known(idom, x)
    && (exists p: nat :: Pred(g, p, b) && Known(idom, p))
    && (forall p: nat :: Pred(g, p, b) && Known(idom, p) ==> Chain(idom, rpo, x) <= Chain(idom, rpo, p))
    && (forall d: nat :: (forall p: nat :: Pred(g, p, b) && Known(idom, p) ==> d in Chain(idom, rpo, p)) ==>
          d in Chain(idom, rpo, x))
  }

  /** A proper dominator of b lies on the chain of the meeting point. */
  lemma DominatorOnMeet(g: Graph, idom: seq<int>, rpo: seq<nat>, b: nat, x: nat, d: nat)
    requires Inv(g, idom, rpo) && 0 < b < |g| && Meets(g, idom, rpo, b, x)
    requires d != b && Dominates(g, d, b)
    ensures d in Chain(idom, rpo, x)
  {
    forall p: nat | Pred(g, p, b) && Known(idom, p)
      ensures d in Chain(idom, rpo, p)
    {
      DominatesPredecessor(g, d, p, b);
    }
  }

  /** Dominators stay on every chain, even on the chains of blocks hanging below b whose own entry
      is stale. */
  lemma UpdateKeepsDominators(g: Graph, idom: seq<int>, rpo: seq<nat>, b: nat, x: nat, c: nat, d: nat)
    requires Inv(g, idom, rpo) && 0 < b < |g| && Meets(g, idom, rpo, b, x) && rpo[x] < rpo[b] && x != NONE
    requires Tree(idom[b := x], rpo) && Known(idom[b := x], c) && Dominates(g, d, c)
    ensures d in Chain(idom[b := x], rpo, c)
  {
    NewChain(idom, rpo, b, x);
    if c == b {
      if d != b {
        DominatorOnMeet(g, idom, rpo, b, x, d);
      }
    } else {
      assert Known(idom, c);
      UpdateChain(idom, rpo, b, x, c);
      assert d in Chain(idom, rpo, c);
      ChainMembers(idom, rpo, c);
      if b in Chain(idom, rpo, c) && d in Chain(idom, rpo, b) && d != b {
        ChainMembers(idom, rpo, b);
        AboveChain(g, idom, rpo, c, b);
        DominatorOfBelow(g, rpo, d, b, c);
        DominatorOnMeet(g, idom, rpo, b, x, d);
      }
    }
  }

  lemma UpdateInv(g: Graph, idom: seq<int>, rpo: seq<nat>, b: nat, x: nat)
    requires Inv(g, idom, rpo) && 0 < b < |g| && Meets(g, idom, rpo, b, x) && rpo[x] < rpo[b]
    ensures Inv(g, idom[b := x], rpo)
  {
    hide Dominates, Reachable, Above, Walk;
    var idom' := idom[b := x];
    UpdateTree(idom, rpo, b, x);
    UpdateWalks(g, idom, rpo, b, x);
    hide Meets;
    forall c: nat, d: nat | Known(idom', c) && Dominates(g, d, c)
      ensures d in Chain(idom', rpo, c)
    {
      UpdateKeepsDominators(g, idom, rpo, b, x, c, d);
    }
  }

  lemma UpdateWalks(g: Graph, idom: seq<int>, rpo: seq<nat>, b: nat, x: nat)
    requires Inv(g, idom, rpo) && 0 < b < |g| && Meets(g, idom, rpo, b, x) && rpo[x] < rpo[b]
    ensures Reachable(g, b) && x < |g| && Above(g, rpo, x, b)
  {
    hide Dominates;
    var p: nat :| Pred(g, p, b) && Known(idom, p);
    ReachableSuccessor(g, p, b);
    ChainMembers(idom, rpo, x);
    AboveChain(g, idom, rpo, p, x);
    AboveStep(g, rpo, x, p, b);
  }

  // ---- The fixpoint ----

  /** Every reachable block is known and its entry is already the meeting point. */
  ghost predicate Settled(g: Graph, idom: seq<int>, rpo: seq<nat>)
    requires Tree(idom, rpo)
  {
    && (forall b: nat :: b < |g| && Reachable(g, b) ==> Known(idom, b))
    && (forall b: nat :: 0 < b < |g| && Known(idom, b) && 0 <= idom[b] ==> Meets(g, idom, rpo, b, idom[b]))
  }

  lemma {:induction false} ChainIsOnPath(g: Graph, idom: seq<int>, rpo: seq<nat>, b: nat, d: nat, w: seq<nat>)
    requires Inv(g, idom, rpo) && Settled(g, idom, rpo) && Known(idom, b) && d in Chain(idom, rpo, b) && PathTo(g, w, b)
    ensures d in w
    decreases |w|
  {
    if d == b {
      assert w[|w| - 1] == b;
    } else {
      var n := |w| - 1;
      ChainMembers(idom, rpo, b);
      assert b != 0;
      var p := w[n - 1];
      var u := w[..n];
      assert w[n - 1 + 1] in g[w[n - 1]];
      assert PathTo(g, u, p);
      assert Pred(g, p, b) && Known(idom, p);
      assert d in Chain(idom, rpo, idom[b]);
      ChainIsOnPath(g, idom, rpo, p, d, u);
    }
  }

  /** At the fixpoint the chain of a reachable block is exactly its set of dominators. */
  lemma ChainIsDominators(g: Graph, idom: seq<int>, rpo: seq<nat>, b: nat, d: nat)
    requires Inv(g, idom, rpo) && Settled(g, idom, rpo) && b < |g| && Reachable(g, b)
    ensures Known(idom, b) && (d in Chain(idom, rpo, b) <==> Dominates(g, d, b))
  {
    if d in Chain(idom, rpo, b) {
      forall w | PathTo(g, w, b)
        ensures d in w
      {
        ChainIsOnPath(g, idom, rpo, b, d, w);
      }
    }
  }
}
