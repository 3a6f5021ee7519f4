/** Why the iteration to dominators stops in time: chains only ever shrink, and each pass in numbering
    order accounts for one more retreating edge. */
module DominatorProgress {
  import opened Dominance
  import opened Permutations

  /** What all known predecessors of c have on their chains, c has on its own. */
  ghost predicate Sub(g: Graph, idom: seq<int>, rpo: seq<nat>, c: nat)
    requires Tree(idom, rpo) && Known(idom, c)
  {
    forall d: nat :: (forall p: nat :: Pred(g, p, c) && Known(idom, p) ==> d in Chain(idom, rpo, p)) ==>
        d in Chain(idom, rpo, c)
  }

  /** The blocks numbered from on that lie on the chain of c above c also lie on the chain of q, a
      predecessor of smaller number. */
  ghost predicate BackedBy(g: Graph, idom: seq<int>, rpo: seq<nat>, c: nat, from: nat, q: nat)
    requires Tree(idom, rpo) && Known(idom, c)
  {
    && Pred(g, q, c) && Known(idom, q) && rpo[q] < rpo[c]
    && forall b :: b in Chain(idom, rpo, c) && b != c && b < |rpo| && rpo[b] >= from ==> b in Chain(idom, rpo, q)
  }

  ghost predicate Backed(g: Graph, idom: seq<int>, rpo: seq<nat>, c: nat, from: nat)
    requires Tree(idom, rpo) && Known(idom, c)
  {
    exists q :: BackedBy(g, idom, rpo, c, from, q)
  }

  /** Blocks already visited in this pass are backed in full, the others from the visit on. */
  function From(rpo: seq<nat>, c: nat, ri: nat): nat {
    if c < |rpo| && rpo[c] < ri then 0 else ri
  }

  ghost predicate Orderly(g: Graph, idom: seq<int>, rpo: seq<nat>, ri: nat) {
    && Tree(idom, rpo) && |idom| == |g|
    && (forall c: nat :: c != 0 && Known(idom, c) ==> Sub(g, idom, rpo, c))
    && (forall c: nat :: c != 0 && Known(idom, c) ==> Backed(g, idom, rpo, c, From(rpo, c, ri)))
  }

  /** The setting of one visit: block b, numbered ri, moves to the meeting point x of its known
      predecessors, of which p0 has a smaller number. */
  ghost predicate Visits(g: Graph, idom: seq<int>, rpo: seq<nat>, b: nat, x: nat, p0: nat) {
    && Tree(idom, rpo) && |idom| == |g| && 0 < b < |g| && Meets(g, idom, rpo, b, x) && rpo[x] < rpo[b] && x != NONE
    && Pred(g, p0, b) && Known(idom, p0) && rpo[p0] < rpo[b]
    && (forall c: nat :: Known(idom, c) && rpo[c] == rpo[b] ==> c == b)
  }

  /** No chain grows. */
  lemma ChainShrinks(g: Graph, idom: seq<int>, rpo: seq<nat>, ri: nat, b: nat, x: nat, p0: nat, c: nat)
    requires Visits(g, idom, rpo, b, x, p0) && Orderly(g, idom, rpo, ri) && Known(idom, c)
    ensures Tree(idom[b := x], rpo) && Known(idom[b := x], c)
    ensures Chain(idom[b := x], rpo, c) == Cut(idom, rpo, b, x, c) <= Chain(idom, rpo, c)
  {
    UpdateChain(idom, rpo, b, x, c);
    if b in Chain(idom, rpo, c) {
      ChainMembers(idom, rpo, c);
      MeetInside(g, idom, rpo, ri, b, x, p0);
      ChainNested(idom, rpo, c, b);
      ChainMembers(idom, rpo, b);
    }
  }

  lemma MeetInside(g: Graph, idom: seq<int>, rpo: seq<nat>, ri: nat, b: nat, x: nat, p0: nat)
    requires Visits(g, idom, rpo, b, x, p0) && Orderly(g, idom, rpo, ri) && Known(idom, b)
    ensures Chain(idom, rpo, x) <= Chain(idom, rpo, b)
  {
    hide Chain;
    assert Sub(g, idom, rpo, b);
  }

  /** Below the visited number chains stay as they are. */
  lemma LowerKept(g: Graph, idom: seq<int>, rpo: seq<nat>, b: nat, x: nat, p0: nat, c: nat)
    requires Visits(g, idom, rpo, b, x, p0) && Known(idom, c) && rpo[c] < rpo[b]
    ensures Tree(idom[b := x], rpo) && Known(idom[b := x], c) && Chain(idom[b := x], rpo, c) == Chain(idom, rpo, c)
  {
    ChainMembers(idom, rpo, c);
    UpdateChain(idom, rpo, b, x, c);
  }

  /** Above it the parts of chains numbered higher stay as they are. */
  lemma UpperKept(g: Graph, idom: seq<int>, rpo: seq<nat>, b: nat, x: nat, p0: nat, c: nat, y: nat)
    requires Visits(g, idom, rpo, b, x, p0) && Known(idom, c) && y in Chain(idom, rpo, c) && y < |rpo|
    requires rpo[y] > rpo[b]
    ensures Tree(idom[b := x], rpo) && Known(idom[b := x], c) && y in Chain(idom[b := x], rpo, c)
  {
    UpdateChain(idom, rpo, b, x, c);
    ChainMembers(idom, rpo, c);
    if b in Chain(idom, rpo, c) {
      ChainMembers(idom, rpo, b);
    }
  }

  /** Sub survives the visit. */
  lemma SubStep(g: Graph, idom: seq<int>, rpo: seq<nat>, b: nat, x: nat, p0: nat, c: nat, d: nat)
    requires Visits(g, idom, rpo, b, x, p0) && Orderly(g, idom, rpo, rpo[b]) && c != 0 && Tree(idom[b := x], rpo)
    requires Known(idom[b := x], c)
    requires forall p: nat :: Pred(g, p, c) && Known(idom[b := x], p) ==> d in Chain(idom[b := x], rpo, p)
    ensures d in Chain(idom[b := x], rpo, c)
  {
    hide Chain, Cut;
    var idom' := idom[b := x];
    forall p: nat | Pred(g, p, c) && Known(idom, p)
      ensures d in Chain(idom, rpo, p)
    {
      ChainShrinks(g, idom, rpo, rpo[b], b, x, p0, p);
    }
    NewChain(idom, rpo, b, x);
    if c != b {
      assert Sub(g, idom, rpo, c) && Known(idom, c);
      ChainShrinks(g, idom, rpo, rpo[b], b, x, p0, c);
      SubOther(g, idom, rpo, b, x, p0, c, d);
    }
  }

  lemma SubOther(g: Graph, idom: seq<int>, rpo: seq<nat>, b: nat, x: nat, p0: nat, c: nat, d: nat)
    requires Visits(g, idom, rpo, b, x, p0) && Orderly(g, idom, rpo, rpo[b]) && c != 0 && c != b && Known(idom, c)
    requires Tree(idom[b := x], rpo) && d in Chain(idom, rpo, c)
    requires forall p: nat :: Pred(g, p, c) && Known(idom[b := x], p) ==> d in Chain(idom[b := x], rpo, p)
    ensures d in Chain(idom[b := x], rpo, c)
  {
    hide Chain;
    UpdateChain(idom, rpo, b, x, c);
    if b in Chain(idom, rpo, c) {
      ChainMembers(idom, rpo, c);
      assert Backed(g, idom, rpo, c, From(rpo, c, rpo[b]));
      var q :| BackedBy(g, idom, rpo, c, From(rpo, c, rpo[b]), q);
      assert b in Chain(idom, rpo, q);
      UpdateChain(idom, rpo, b, x, q);
    }
  }

  lemma BackedStep(g: Graph, idom: seq<int>, rpo: seq<nat>, b: nat, x: nat, p0: nat, c: nat)
    requires Visits(g, idom, rpo, b, x, p0) && Orderly(g, idom, rpo, rpo[b]) && c != 0 && Tree(idom[b := x], rpo)
    requires Known(idom[b := x], c)
    ensures Backed(g, idom[b := x], rpo, c, From(rpo, c, rpo[b] + 1))
  {
    hide Chain, Cut;
    var idom' := idom[b := x];
    if c == b {
      NewChain(idom, rpo, b, x);
      LowerKept(g, idom, rpo, b, x, p0, p0);
      assert BackedBy(g, idom', rpo, b, 0, p0);
    } else {
      var q :| BackedBy(g, idom, rpo, c, From(rpo, c, rpo[b]), q);
      if rpo[c] < rpo[b] {
        LowerKept(g, idom, rpo, b, x, p0, c);
        LowerKept(g, idom, rpo, b, x, p0, q);
        assert BackedBy(g, idom', rpo, c, 0, q);
      } else {
        ChainShrinks(g, idom, rpo, rpo[b], b, x, p0, c);
        forall y | y in Chain(idom', rpo, c) && y != c && y < |rpo| && rpo[y] >= rpo[b] + 1
          ensures y in Chain(idom', rpo, q)
        {
          UpperKept(g, idom, rpo, b, x, p0, q, y);
        }
        UpdateTree(idom, rpo, b, x);
        assert BackedBy(g, idom', rpo, c, rpo[b] + 1, q);
      }
    }
  }

  lemma OrderlyStep(g: Graph, idom: seq<int>, rpo: seq<nat>, b: nat, x: nat, p0: nat)
    requires Visits(g, idom, rpo, b, x, p0) && Orderly(g, idom, rpo, rpo[b])
    ensures Orderly(g, idom[b := x], rpo, rpo[b] + 1)
  {
    hide Chain, Backed;
    var idom' := idom[b := x];
    UpdateTree(idom, rpo, b, x);
    hide Meets;
    forall c: nat | c != 0 && Known(idom', c)
      ensures Sub(g, idom', rpo, c) && Backed(g, idom', rpo, c, From(rpo, c, rpo[b] + 1))
    {
      BackedStep(g, idom, rpo, b, x, p0, c);
      forall d: nat | forall p: nat :: Pred(g, p, c) && Known(idom', p) ==> d in Chain(idom', rpo, p)
        ensures d in Chain(idom', rpo, c)
      {
        SubStep(g, idom, rpo, b, x, p0, c, d);
      }
    }
  }

  /** Passing over the entry, or over a block that stays unknown. */
  lemma OrderlySkip(g: Graph, idom: seq<int>, rpo: seq<nat>, b: nat, ri: nat)
    requires Orderly(g, idom, rpo, ri) && b < |g| && rpo[b] == ri && (b == 0 || !Known(idom, b))
    requires forall c: nat :: c < |g| && rpo[c] == ri ==> c == b
    ensures Orderly(g, idom, rpo, ri + 1)
  {
    hide Chain, Sub;
    forall c: nat | c != 0 && Known(idom, c)
      ensures Backed(g, idom, rpo, c, From(rpo, c, ri + 1))
    {
      var q :| BackedBy(g, idom, rpo, c, From(rpo, c, ri), q);
      assert BackedBy(g, idom, rpo, c, From(rpo, c, ri + 1), q);
    }
  }

  /** The end of a pass is the start of the next. */
  lemma OrderlyWrap(g: Graph, idom: seq<int>, rpo: seq<nat>)
    requires Orderly(g, idom, rpo, |g|) && forall c: nat :: c < |g| ==> rpo[c] < |g|
    ensures Orderly(g, idom, rpo, 0)
  {
    hide Chain, Sub, Backed;
  }

  lemma OrderlyStart(g: Graph, idom: seq<int>, rpo: seq<nat>)
    requires |g| > 0 && |rpo| == |g| == |idom| && idom[0] == 0 && forall c :: 1 <= c < |g| ==> idom[c] == NONE
    ensures Orderly(g, idom, rpo, 0)
  {
  }

  // ---- Counting retreating edges ----

  /** Edges of the walk that do not go up in the numbering. */
  ghost function Retreats(rpo: seq<nat>, w: seq<nat>): nat {
    if |w| <= 1 then 0
    else
      var n := |w| - 1;
      Retreats(rpo, w[..n]) + if w[n] < |rpo| && w[n - 1] < |rpo| && rpo[w[n - 1]] < rpo[w[n]] then 0 else 1
  }

  lemma {:induction false} RetreatsBound(rpo: seq<nat>, w: seq<nat>)
    requires |w| > 0
    ensures Retreats(rpo, w) < |w|
  {
    if |w| > 1 {
      RetreatsBound(rpo, w[..|w| - 1]);
    }
  }

  function Turns(rpo: seq<nat>, c: nat, k: nat, ri: nat): nat {
    if c < |rpo| && rpo[c] < ri then k + 1 else k
  }

  /** After k passes and ri visits, a block is known and d is off its chain if some path to it avoids
      d with few enough retreating edges. */
  ghost predicate Avoids(g: Graph, idom: seq<int>, rpo: seq<nat>, k: nat, ri: nat) {
    Tree(idom, rpo) && |idom| == |g| &&
    forall w: seq<nat>, c: nat, d: nat :: PathTo(g, w, c) && d !in w && Retreats(rpo, w) < Turns(rpo, c, k, ri) ==>
      Known(idom, c) && d !in Chain(idom, rpo, c)
  }

  /** The last step of a path, seen from the visit of its end. */
  lemma LastStep(g: Graph, idom: seq<int>, rpo: seq<nat>, k: nat, b: nat, w: seq<nat>, d: nat) returns (u: nat)
    requires |rpo| == |g| && 0 < b < |g| && Avoids(g, idom, rpo, k, rpo[b]) && PathTo(g, w, b) && d !in w
    requires Retreats(rpo, w) < k + 1
    ensures Pred(g, u, b) && Known(idom, u) && d !in Chain(idom, rpo, u) && d != b
  {
    hide Chain;
    var n := |w| - 1;
    u := w[n - 1];
    var v := w[..n];
    assert w[n - 1 + 1] in g[w[n - 1]];
    assert PathTo(g, v, u) && d !in v;
    assert d != b by { assert w[n] == b; }
    assert Retreats(rpo, v) < Turns(rpo, u, k, rpo[b]);
  }

  lemma AvoidsStep(g: Graph, idom: seq<int>, rpo: seq<nat>, k: nat, b: nat, x: nat, p0: nat)
    requires Visits(g, idom, rpo, b, x, p0) && Orderly(g, idom, rpo, rpo[b]) && Avoids(g, idom, rpo, k, rpo[b])
    requires forall c: nat :: c < |g| && rpo[c] == rpo[b] ==> c == b
    ensures Avoids(g, idom[b := x], rpo, k, rpo[b] + 1)
  {
    hide Chain, Walk, Orderly, Meets, PathTo, Retreats;
    var idom' := idom[b := x];
    VisitTree(g, idom, rpo, b, x, p0);
    forall w: seq<nat>, c: nat, d: nat | PathTo(g, w, c) && d !in w && Retreats(rpo, w) < Turns(rpo, c, k, rpo[b] + 1)
      ensures Known(idom', c) && d !in Chain(idom', rpo, c)
    {
      PathEnd(g, w, c);
      if c == b {
        AvoidsHere(g, idom, rpo, k, b, x, p0, w, d);
      } else {
        assert Retreats(rpo, w) < Turns(rpo, c, k, rpo[b]);
        ChainShrinks(g, idom, rpo, rpo[b], b, x, p0, c);
      }
    }
  }

  lemma VisitTree(g: Graph, idom: seq<int>, rpo: seq<nat>, b: nat, x: nat, p0: nat)
    requires Visits(g, idom, rpo, b, x, p0)
    ensures Tree(idom[b := x], rpo) && |idom[b := x]| == |rpo| == |g| && Known(idom, x)
  {
    UpdateTree(idom, rpo, b, x);
  }

  lemma AvoidsHere(g: Graph, idom: seq<int>, rpo: seq<nat>, k: nat, b: nat, x: nat, p0: nat, w: seq<nat>, d: nat)
    requires |rpo| == |g| && Visits(g, idom, rpo, b, x, p0) && Avoids(g, idom, rpo, k, rpo[b])
    requires PathTo(g, w, b) && d !in w && Retreats(rpo, w) < k + 1
    ensures Tree(idom[b := x], rpo) && Known(idom[b := x], b) && d !in Chain(idom[b := x], rpo, b)
  {
    hide Chain, Walk;
    var u := LastStep(g, idom, rpo, k, b, w, d);
    NewChain(idom, rpo, b, x);
    assert Chain(idom, rpo, x) <= Chain(idom, rpo, u);
  }

  lemma PathEnd(g: Graph, w: seq<nat>, c: nat)
    requires PathTo(g, w, c)
    ensures c < |g|
  {
  }

  lemma AvoidsSkip(g: Graph, idom: seq<int>, rpo: seq<nat>, k: nat, b: nat, ri: nat)
    requires Avoids(g, idom, rpo, k, ri) && b < |g| && rpo[b] == ri && (b == 0 || !Reachable(g, b))
    requires forall c: nat :: c < |g| && rpo[c] == ri ==> c == b
    ensures Avoids(g, idom, rpo, k, ri + 1)
  {
    forall w: seq<nat>, c: nat, d: nat | PathTo(g, w, c) && d !in w && Retreats(rpo, w) < Turns(rpo, c, k, ri + 1)
      ensures Known(idom, c) && d !in Chain(idom, rpo, c)
    {
      if c == b {
        assert c == 0;
        assert w[0] == 0;
      } else {
        assert Retreats(rpo, w) < Turns(rpo, c, k, ri);
      }
    }
  }

  lemma AvoidsWrap(g: Graph, idom: seq<int>, rpo: seq<nat>, k: nat)
    requires Avoids(g, idom, rpo, k, |g|) && forall c: nat :: c < |g| ==> rpo[c] < |g|
    ensures Avoids(g, idom, rpo, k + 1, 0)
  {
    hide Chain, Walk;
    forall w: seq<nat>, c: nat, d: nat | PathTo(g, w, c) && d !in w && Retreats(rpo, w) < Turns(rpo, c, k + 1, 0)
      ensures Known(idom, c) && d !in Chain(idom, rpo, c)
    {
      PathEnd(g, w, c);
      assert Retreats(rpo, w) < Turns(rpo, c, k, |g|);
    }
  }

  // ---- Short paths ----

  /** Cutting loops out of a path leaves at most as many blocks as there are. */
  lemma {:induction false} ShortPath(g: Graph, w: seq<nat>, c: nat, d: nat) returns (v: seq<nat>)
    requires PathTo(g, w, c) && d !in w
    ensures PathTo(g, v, c) && d !in v && |v| <= |g|
    decreases |w|
  {
    if |w| <= |g| {
      v := w;
    } else {
      if forall i, j :: 0 <= i < j < |w| ==> w[i] != w[j] {
        Pigeonhole(|g|, w);
        assert false;
      }
      var i, j :| 0 <= i < j < |w| && w[i] == w[j];
      var u := w[..i] + w[j..];
      CutLoop(g, w, c, i, j);
      v := ShortPath(g, u, c, d);
    }
  }

  lemma CutLoop(g: Graph, w: seq<nat>, c: nat, i: nat, j: nat)
    requires PathTo(g, w, c) && i < j < |w| && w[i] == w[j]
    ensures var u := w[..i] + w[j..]; PathTo(g, u, c) && |u| < |w| && forall y :: y in u ==> y in w
  {
    var u := w[..i] + w[j..];
    forall m | 0 <= m < |u| - 1
      ensures u[m + 1] in g[u[m]]
    {
      if m + 1 < i {
        assert u[m] == w[m] && u[m + 1] == w[m + 1];
      } else if m + 1 == i {
        assert u[m] == w[m] && u[m + 1] == w[j] == w[m + 1];
      } else {
        assert u[m] == w[m - i + j] && u[m + 1] == w[m - i + j + 1];
      }
    }
  }

  // ---- The last pass changes nothing ----

  /** After as many passes as there are blocks every chain holds dominators only. */
  lemma OnlyDominators(g: Graph, idom: seq<int>, rpo: seq<nat>, c: nat, d: nat)
    requires Avoids(g, idom, rpo, |g|, 0) && Known(idom, c) && d in Chain(idom, rpo, c)
    ensures Dominates(g, d, c)
  {
    hide Chain, Walk;
    forall w | PathTo(g, w, c)
      ensures d in w
    {
      if d !in w {
        var v := ShortPath(g, w, c, d);
        PathLength(g, v, c);
        RetreatsBound(rpo, v);
        assert false;
      }
    }
  }

  lemma PathLength(g: Graph, w: seq<nat>, c: nat)
    requires PathTo(g, w, c)
    ensures |w| > 0
  {
  }

  /** When chains hold dominators only, the meeting point is the entry already there. */
  lemma NothingToMove(g: Graph, idom: seq<int>, rpo: seq<nat>, ri: nat, b: nat, x: nat, p0: nat)
    requires Inv(g, idom, rpo) && Visits(g, idom, rpo, b, x, p0) && Orderly(g, idom, rpo, ri)
    requires Avoids(g, idom, rpo, |g|, 0) && Known(idom, b)
    ensures idom[b] == x
  {
    var y := idom[b];
    MeetInside(g, idom, rpo, ri, b, x, p0);
    ChainMembers(idom, rpo, x);
    ChainMembers(idom, rpo, y);
    assert Chain(idom, rpo, b) == {b} + Chain(idom, rpo, y);
    hide Chain, Meets, Dominates, Reachable, Above, Sub, Backed;
    assert x in Chain(idom, rpo, b);
    OnlyDominators(g, idom, rpo, b, y);
    DominatorOnMeet(g, idom, rpo, b, x, y);
  }
}
