/** rs_dom: the iteration to immediate dominators, with its two-finger intersection. */
module DominatorTree {
  import opened Dominance
  import opened DominatorProgress
  import DepthFirst
  import FiniteSets

  // ---- Predecessor lists ----

  ghost predicate PredLists(g: Graph, preds: seq<seq<nat>>) {
    |preds| == |g| && forall b: nat, p: nat :: b < |g| ==> (p in preds[b] <==> Pred(g, p, b))
  }

  /** The second half of rs_cfg: list, for every block, the blocks that branch to it. */
  method BuildPreds(g: Graph) returns (preds: seq<seq<nat>>)
    requires Valid(g)
    ensures PredLists(g, preds)
  {
    preds := seq(|g|, _ => []);
    for bi: nat := 0 to |g|
      invariant |preds| == |g|
      invariant forall b: nat, p: nat :: b < |g| ==> (p in preds[b] <==> p < bi && Pred(g, p, b))
    {
      for s := 0 to |g[bi]|
        invariant |preds| == |g|
        invariant forall b: nat, p: nat :: b < |g| ==>
                    (p in preds[b] <==> (p < bi && Pred(g, p, b)) || (p == bi && b in g[bi][..s]))
      {
        var tgt := g[bi][s];
        assert g[bi][..s + 1] == g[bi][..s] + [tgt];
        preds := preds[tgt := preds[tgt] + [bi]];
      }
      assert g[bi][..|g[bi]|] == g[bi];
    }
  }

  // ---- The two-finger walk ----

  /** rpo numbers blocks without repetition. */
  ghost predicate Injective(rpo: seq<nat>) {
    forall a, b :: 0 <= a < b < |rpo| ==> rpo[a] != rpo[b]
  }

  /** How far apart two fingers are: the blocks on one chain and not on the other. */
  ghost function Apart(idom: seq<int>, rpo: seq<nat>, f1: nat, f2: nat): nat
    requires Tree(idom, rpo) && Known(idom, f1) && Known(idom, f2)
  {
    |Chain(idom, rpo, f1) - Chain(idom, rpo, f2)| + |Chain(idom, rpo, f2) - Chain(idom, rpo, f1)|
  }

  lemma {:induction false} ChainInRange(idom: seq<int>, rpo: seq<nat>, b: nat)
    requires Tree(idom, rpo) && Known(idom, b)
    ensures forall x :: x in Chain(idom, rpo, b) ==> x < |idom|
  {
    ChainMembers(idom, rpo, b);
  }

  /** The chains share the entry, so together they have fewer private blocks than there are
      blocks. */
  lemma ApartBound(idom: seq<int>, rpo: seq<nat>, f1: nat, f2: nat)
    requires Tree(idom, rpo) && Known(idom, f1) && Known(idom, f2)
    ensures Apart(idom, rpo, f1, f2) < |idom|
  {
    var a, b := Chain(idom, rpo, f1), Chain(idom, rpo, f2);
    ChainMembers(idom, rpo, f1);
    ChainMembers(idom, rpo, f2);
    ChainInRange(idom, rpo, f1);
    ChainInRange(idom, rpo, f2);
    var u := (a - b) + (b - a) + {0};
    FiniteSets.BelowSize(u, |idom|);
    assert |u| == |a - b| + |b - a| + 1;
  }

  /** Dropping from a a block that b does not have. */
  lemma DropPrivate(a: set<nat>, a': set<nat>, b: set<nat>, f: nat)
    requires a == {f} + a' && f !in a' && f !in b
    ensures a' * b == a * b && |a - b| == |a' - b| + 1 && b - a == b - a'
  {
    assert a - b == (a' - b) + {f};
  }

  /** Moving the higher finger up drops one private block and keeps the common part. */
  lemma FingerStep(idom: seq<int>, rpo: seq<nat>, f1: nat, f2: nat)
    requires Tree(idom, rpo) && Known(idom, f1) && Known(idom, f2) && rpo[f1] > rpo[f2]
    ensures f1 != 0 && 0 <= idom[f1] && Known(idom, idom[f1])
    ensures Chain(idom, rpo, idom[f1]) * Chain(idom, rpo, f2) == Chain(idom, rpo, f1) * Chain(idom, rpo, f2)
    ensures Apart(idom, rpo, idom[f1], f2) == Apart(idom, rpo, f1, f2) - 1
  {
    ChainMembers(idom, rpo, f2);
    EntryIsLowest(idom, rpo, f2);
    ChainMembers(idom, rpo, idom[f1]);
    DropPrivate(Chain(idom, rpo, f1), Chain(idom, rpo, idom[f1]), Chain(idom, rpo, f2), f1);
  }

  lemma EntryIsLowest(idom: seq<int>, rpo: seq<nat>, f: nat)
    requires Tree(idom, rpo) && Known(idom, f)
    ensures rpo[0] <= rpo[f]
  {
    ChainMembers(idom, rpo, f);
  }

  /** The chains of the two fingers still meet where the chains of p and q do. */
  ghost predicate SameMeet(idom: seq<int>, rpo: seq<nat>, f1: nat, f2: nat, p: nat, q: nat)
    requires Tree(idom, rpo) && Known(idom, f1) && Known(idom, f2) && Known(idom, p) && Known(idom, q)
  {
    Chain(idom, rpo, f1) * Chain(idom, rpo, f2) == Chain(idom, rpo, p) * Chain(idom, rpo, q)
  }

  lemma SameMeetSwap(idom: seq<int>, rpo: seq<nat>, f1: nat, f2: nat, p: nat, q: nat)
    requires Tree(idom, rpo) && Known(idom, f1) && Known(idom, f2) && Known(idom, p) && Known(idom, q)
    ensures SameMeet(idom, rpo, f1, f2, p, q) <==> SameMeet(idom, rpo, f2, f1, p, q)
    ensures Apart(idom, rpo, f1, f2) == Apart(idom, rpo, f2, f1)
  {
  }

  /** One inner loop: raise the finger f1 until it is no longer below f2.  Every step spends one
      unit of the budget and removes one private block. */
  method Climb(idom: seq<int>, rpo: seq<nat>, p: nat, f2: nat, budget: nat) returns (f1: nat, ig: nat)
    requires Tree(idom, rpo) && Known(idom, p) && Known(idom, f2) && budget > Apart(idom, rpo, p, f2)
    ensures Known(idom, f1) && rpo[f1] <= rpo[f2] && SameMeet(idom, rpo, f1, f2, p, f2)
    ensures ig - budget == Apart(idom, rpo, f1, f2) - Apart(idom, rpo, p, f2) <= 0
    ensures if rpo[p] > rpo[f2] then ig < budget else f1 == p && ig == budget
  {
    hide Chain, Apart;
    f1, ig := p, budget;
    while rpo[f1] > rpo[f2] && ig > 0
      invariant Known(idom, f1) && SameMeet(idom, rpo, f1, f2, p, f2)
      invariant ig - budget == Apart(idom, rpo, f1, f2) - Apart(idom, rpo, p, f2) <= 0
      invariant (f1 == p && ig == budget) || (rpo[p] > rpo[f2] && ig < budget)
      decreases ig
    {
      FingerStep(idom, rpo, f1, f2);
      ig, f1 := ig - 1, idom[f1];
    }
  }

  lemma SameMeetChained(idom: seq<int>, rpo: seq<nat>, f1: nat, f2: nat, e1: nat, e2: nat, p: nat, q: nat)
    requires Tree(idom, rpo) && Known(idom, f1) && Known(idom, f2) && Known(idom, e1) && Known(idom, e2)
    requires Known(idom, p) && Known(idom, q)
    requires SameMeet(idom, rpo, f1, f2, e1, e2) && SameMeet(idom, rpo, e1, e2, p, q)
    ensures SameMeet(idom, rpo, f1, f2, p, q)
  {
  }

  /** Walk both fingers up until they meet.  The budget of 2 * nb steps is never used up. */
  method Intersect(idom: seq<int>, rpo: seq<nat>, p: nat, q: nat) returns (f: nat)
    requires Tree(idom, rpo) && Injective(rpo) && Known(idom, p) && Known(idom, q)
    ensures Known(idom, f)
    ensures Chain(idom, rpo, f) == Chain(idom, rpo, p) * Chain(idom, rpo, q)
  {
    hide Chain, Apart, SameMeet;
    var f1, f2 := p, q;
    SameMeetStart(idom, rpo, p, q);
    var ig := |idom| * 2;
    ApartBound(idom, rpo, p, q);
    while f1 != f2 && ig > 0
      invariant Known(idom, f1) && Known(idom, f2) && SameMeet(idom, rpo, f1, f2, p, q)
      invariant ig >= 2 * Apart(idom, rpo, f1, f2) + 2
      decreases ig
    {
      assert rpo[f1] != rpo[f2];
      ig := ig - 1;
      ghost var e1 := f1;
      f1, ig := Climb(idom, rpo, f1, f2, ig);
      SameMeetChained(idom, rpo, f1, f2, e1, f2, p, q);
      SameMeetSwap(idom, rpo, f1, f2, p, q);
      ghost var e2 := f2;
      f2, ig := Climb(idom, rpo, f2, f1, ig);
      SameMeetChained(idom, rpo, f2, f1, e2, f1, p, q);
      SameMeetSwap(idom, rpo, f2, f1, p, q);
    }
    f := f1;
    SelfMeet(idom, rpo, f1, p, q);
  }

  lemma SameMeetStart(idom: seq<int>, rpo: seq<nat>, p: nat, q: nat)
    requires Tree(idom, rpo) && Known(idom, p) && Known(idom, q)
    ensures SameMeet(idom, rpo, p, q, p, q)
  {
  }

  lemma SelfMeet(idom: seq<int>, rpo: seq<nat>, f: nat, p: nat, q: nat)
    requires Tree(idom, rpo) && Known(idom, f) && Known(idom, p) && Known(idom, q) && SameMeet(idom, rpo, f, f, p, q)
    ensures Chain(idom, rpo, f) == Chain(idom, rpo, p) * Chain(idom, rpo, q)
  {
    var c := Chain(idom, rpo, f);
    assert c * c == c;
  }

  // ---- The meeting point of the known predecessors ----

  /** x lies on the chain of every known block of ps. */
  ghost predicate Under(idom: seq<int>, rpo: seq<nat>, ps: seq<nat>, x: nat)
    requires Tree(idom, rpo) && Known(idom, x)
  {
    forall p :: p in ps && Known(idom, p) ==> Chain(idom, rpo, x) <= Chain(idom, rpo, p)
  }

  /** Every block on all the chains of known blocks of ps is on the chain of x. */
  ghost predicate Covers(idom: seq<int>, rpo: seq<nat>, ps: seq<nat>, x: nat)
    requires Tree(idom, rpo) && Known(idom, x)
  {
    forall d :: (forall p :: p in ps && Known(idom, p) ==> d in Chain(idom, rpo, p)) ==> d in Chain(idom, rpo, x)
  }

  lemma FirstCovers(idom: seq<int>, rpo: seq<nat>, ps: seq<nat>, x: nat)
    requires Tree(idom, rpo) && Known(idom, x) && x in ps
    ensures Covers(idom, rpo, ps, x)
  {
  }

  lemma UnderSkip(idom: seq<int>, rpo: seq<nat>, ps: seq<nat>, p: nat, x: nat)
    requires Tree(idom, rpo) && Known(idom, x) && Under(idom, rpo, ps, x) && (p == x || !Known(idom, p))
    ensures Under(idom, rpo, ps + [p], x)
  {
  }

  lemma UnderMeet(idom: seq<int>, rpo: seq<nat>, all: seq<nat>, ps: seq<nat>, p: nat, x: nat, y: nat)
    requires Tree(idom, rpo) && Known(idom, x) && Known(idom, y) && Known(idom, p) && p in all
    requires Under(idom, rpo, ps, x) && Covers(idom, rpo, all, x)
    requires Chain(idom, rpo, y) == Chain(idom, rpo, p) * Chain(idom, rpo, x)
    ensures Under(idom, rpo, ps + [p], y) && Covers(idom, rpo, all, y)
  {
  }

  /** The body of rs_dom for one block: the first known predecessor, then its intersection with all
      the others. */
  method MeetOf(idom: seq<int>, rpo: seq<nat>, ps: seq<nat>) returns (x: int)
    requires Tree(idom, rpo) && Injective(rpo) && |idom| <= NONE
    requires forall p :: p in ps ==> p < |idom|
    ensures x == NONE <==> forall p :: p in ps ==> !Known(idom, p)
    ensures x != NONE ==> 0 <= x && Known(idom, x) && Under(idom, rpo, ps, x) && Covers(idom, rpo, ps, x)
  {
    hide Under, Covers, Chain, Tree;
    x := NONE;
    for i := 0 to |ps|
      invariant x == NONE && forall j :: 0 <= j < i ==> !Known(idom, ps[j])
    {
      assert ps[i] in ps;
      if idom[ps[i]] != NONE {
        x := ps[i];
        break;
      }
    }
    if x == NONE {
      return;
    }
    FirstCovers(idom, rpo, ps, x);
    NothingUnder(idom, rpo, x);
    for i := 0 to |ps|
      invariant 0 <= x != NONE && Known(idom, x) && Under(idom, rpo, ps[..i], x) && Covers(idom, rpo, ps, x)
    {
      var p := ps[i];
      assert p in ps && ps[..i + 1] == ps[..i] + [p];
      if p == x || idom[p] == NONE {
        UnderSkip(idom, rpo, ps[..i], p, x);
      } else {
        var f := Intersect(idom, rpo, p, x);
        UnderMeet(idom, rpo, ps, ps[..i], p, x, f);
        x := f;
      }
    }
    assert ps[..|ps|] == ps;
  }

  lemma NothingUnder(idom: seq<int>, rpo: seq<nat>, x: nat)
    requires Tree(idom, rpo) && Known(idom, x)
    ensures Under(idom, rpo, [], x)
  {
  }

  // ---- One pass ----

  /** All reachable blocks numbered below n are known. */
  ghost predicate KnownBelow(g: Graph, idom: seq<int>, rord: seq<nat>, n: nat) {
    forall i: nat :: i < n && i < |rord| && Reachable(g, rord[i]) ==> Known(idom, rord[i])
  }

  /** The entry of b is what the pass would compute again. */
  ghost predicate Fixed(g: Graph, idom: seq<int>, rpo: seq<nat>, b: nat) {
    Tree(idom, rpo) && (b != 0 && Known(idom, b) && 0 <= idom[b] ==> Meets(g, idom, rpo, b, idom[b]))
  }

  ghost predicate FixedBelow(g: Graph, idom: seq<int>, rpo: seq<nat>, rord: seq<nat>, n: nat) {
    forall i: nat :: i < n && i < |rord| ==> Fixed(g, idom, rpo, rord[i])
  }

  lemma MeetOfIsMeets(g: Graph, preds: seq<seq<nat>>, idom: seq<int>, rpo: seq<nat>, b: nat, x: nat)
    requires Tree(idom, rpo) && |idom| == |g| && PredLists(g, preds) && b < |g| && Known(idom, x)
    requires Under(idom, rpo, preds[b], x) && Covers(idom, rpo, preds[b], x)
    requires exists p :: p in preds[b] && Known(idom, p)
    ensures Meets(g, idom, rpo, b, x)
  {
    hide Chain;
    forall d: nat | forall p: nat :: Pred(g, p, b) && Known(idom, p) ==> d in Chain(idom, rpo, p)
      ensures d in Chain(idom, rpo, x)
    {
      assert forall p :: p in preds[b] && Known(idom, p) ==> d in Chain(idom, rpo, p);
    }
    var p :| p in preds[b] && Known(idom, p);
    assert Pred(g, p, b);
  }

  /** A known block is reachable, and so is a block with a known predecessor. */
  lemma UnreachableHasNoKnown(g: Graph, idom: seq<int>, rpo: seq<nat>, b: nat, p: nat)
    requires Inv(g, idom, rpo) && b < |g| && Pred(g, p, b) && Known(idom, p)
    ensures Reachable(g, b)
  {
    ReachableSuccessor(g, p, b);
  }

  /** In numbering order a reachable block always has a known predecessor of smaller number, so the
      meeting point has a smaller number too. */
  lemma LowerIsKnown(g: Graph, idom: seq<int>, rpo: seq<nat>, rord: seq<nat>, b: nat) returns (p: nat)
    requires DepthFirst.Numbering(g, rpo, rord) && 0 < b < |g| && Reachable(g, b)
    requires |idom| == |g| && KnownBelow(g, idom, rord, rpo[b])
    ensures Pred(g, p, b) && Known(idom, p) && rpo[p] < rpo[b]
  {
    assert DepthFirst.Lower(g, rpo, b);
    p :| Pred(g, p, b) && Reachable(g, p) && b < |g| && rpo[p] < rpo[b];
    assert rord[rpo[p]] == p;
  }

  lemma MeetIsLower(g: Graph, idom: seq<int>, rpo: seq<nat>, b: nat, x: nat, p: nat)
    requires Tree(idom, rpo) && |idom| == |g| && b < |g| && Meets(g, idom, rpo, b, x)
    requires Pred(g, p, b) && Known(idom, p) && rpo[p] < rpo[b]
    ensures rpo[x] < rpo[b]
  {
    ChainMembers(idom, rpo, p);
    ChainMembers(idom, rpo, x);
  }

  lemma NumberingInjective(g: Graph, rpo: seq<nat>, rord: seq<nat>)
    requires DepthFirst.Numbering(g, rpo, rord)
    ensures |rpo| == |g| && Injective(rpo)
  {
  }

  lemma PredsInRange(g: Graph, preds: seq<seq<nat>>, b: nat)
    requires PredLists(g, preds) && b < |g|
    ensures |preds| == |g| && forall p :: p in preds[b] ==> p < |g| && Pred(g, p, b)
  {
  }

  /** What the meeting point means for the block. */
  lemma MeetFacts(g: Graph, preds: seq<seq<nat>>, idom: seq<int>, rpo: seq<nat>, rord: seq<nat>, b: nat, x: int)
    requires Inv(g, idom, rpo) && DepthFirst.Numbering(g, rpo, rord) && PredLists(g, preds) && 0 < b < |g|
    requires KnownBelow(g, idom, rord, rpo[b])
    requires x == NONE <==> forall p :: p in preds[b] ==> !Known(idom, p)
    requires x != NONE ==> 0 <= x && Known(idom, x) && Under(idom, rpo, preds[b], x) && Covers(idom, rpo, preds[b], x)
    ensures x == NONE <==> !Reachable(g, b)
    ensures x != NONE ==> 0 <= x && Meets(g, idom, rpo, b, x) && rpo[x] < rpo[b]
  {
    hide Chain, Meets, DepthFirst.Numbering, Reachable, Dominates, KnownBelow, Under, Covers, Above;
    if Reachable(g, b) {
      var p := LowerIsKnown(g, idom, rpo, rord, b);
      assert p in preds[b];
      MeetOfIsMeets(g, preds, idom, rpo, b, x);
      MeetIsLower(g, idom, rpo, b, x, p);
    } else {
      forall p | p in preds[b]
        ensures !Known(idom, p)
      {
        assert Pred(g, p, b);
        if Known(idom, p) {
          UnreachableHasNoKnown(g, idom, rpo, b, p);
        }
      }
    }
  }

  lemma InvParts(g: Graph, idom: seq<int>, rpo: seq<nat>)
    requires Inv(g, idom, rpo)
    ensures Valid(g) && Tree(idom, rpo) && |idom| == |rpo| == |g| <= NONE
    ensures forall b: nat :: Known(idom, b) ==> Reachable(g, b)
  {
  }

  /** The facts about a visit to a reachable block. */
  lemma VisitFacts(g: Graph, idom: seq<int>, rpo: seq<nat>, rord: seq<nat>, b: nat, x: nat) returns (p0: nat)
    requires DepthFirst.Numbering(g, rpo, rord) && 0 < b < |g| && Reachable(g, b) && Tree(idom, rpo) && |idom| == |g|
    requires KnownBelow(g, idom, rord, rpo[b]) && Meets(g, idom, rpo, b, x) && rpo[x] < rpo[b] && x != NONE
    ensures Visits(g, idom, rpo, b, x, p0)
  {
    hide Meets, Reachable;
    p0 := LowerIsKnown(g, idom, rpo, rord, b);
    NumberOnce(g, rpo, rord, b);
  }

  lemma NumberOnce(g: Graph, rpo: seq<nat>, rord: seq<nat>, b: nat)
    requires DepthFirst.Numbering(g, rpo, rord) && b < |g|
    ensures |rpo| == |g| && rpo[b] < |g| && forall c: nat :: c < |g| && rpo[c] == rpo[b] ==> c == b
  {
  }

  /** What a visit to b keeps: the progress of pass k. */
  ghost predicate Progress(g: Graph, idom: seq<int>, rpo: seq<nat>, k: nat, ri: nat) {
    Orderly(g, idom, rpo, ri) && Avoids(g, idom, rpo, k, ri)
  }

  lemma VisitProgress(g: Graph, idom: seq<int>, rpo: seq<nat>, rord: seq<nat>, b: nat, x: nat, k: nat)
    requires Inv(g, idom, rpo) && DepthFirst.Numbering(g, rpo, rord) && 0 < b < |g| && Reachable(g, b)
    requires KnownBelow(g, idom, rord, rpo[b]) && Meets(g, idom, rpo, b, x) && rpo[x] < rpo[b] && x != NONE
    requires Progress(g, idom, rpo, k, rpo[b])
    ensures Progress(g, idom[b := x], rpo, k, rpo[b] + 1)
    ensures Avoids(g, idom, rpo, |g|, 0) && Known(idom, b) ==> idom[b] == x
  {
    InvParts(g, idom, rpo);
    hide Inv, Meets, Reachable, Orderly, Avoids, Visits, KnownBelow, Tree;
    var p0 := VisitFacts(g, idom, rpo, rord, b, x);
    NumberOnce(g, rpo, rord, b);
    hide DepthFirst.Numbering;
    OrderlyStep(g, idom, rpo, b, x, p0);
    AvoidsStep(g, idom, rpo, k, b, x, p0);
    if Avoids(g, idom, rpo, |g|, 0) && Known(idom, b) {
      NothingToMove(g, idom, rpo, rpo[b], b, x, p0);
    }
  }

  lemma SkipProgress(g: Graph, idom: seq<int>, rpo: seq<nat>, rord: seq<nat>, b: nat, k: nat)
    requires DepthFirst.Numbering(g, rpo, rord) && b < |g| && Progress(g, idom, rpo, k, rpo[b])
    requires b == 0 || (!Reachable(g, b) && !Known(idom, b))
    ensures Progress(g, idom, rpo, k, rpo[b] + 1)
  {
    hide Orderly, Avoids, Reachable;
    NumberOnce(g, rpo, rord, b);
    OrderlySkip(g, idom, rpo, b, rpo[b]);
    AvoidsSkip(g, idom, rpo, k, b, rpo[b]);
  }

  lemma WrapProgress(g: Graph, idom: seq<int>, rpo: seq<nat>, rord: seq<nat>, k: nat)
    requires DepthFirst.Numbering(g, rpo, rord) && Progress(g, idom, rpo, k, |g|)
    ensures Progress(g, idom, rpo, k + 1, 0)
  {
    hide Orderly, Avoids;
    OrderlyWrap(g, idom, rpo);
    AvoidsWrap(g, idom, rpo, k);
  }

  /** One visit: the table keeps its invariant, a reachable block becomes known, an unreachable one
      never does, and a visit that changes nothing leaves the block settled.  After as many passes as
      there are blocks no visit changes anything. */
  method Visit(g: Graph, preds: seq<seq<nat>>, rpo: seq<nat>, rord: seq<nat>, idom: seq<int>, b: nat, ghost k: nat)
      returns (next: seq<int>, changed: bool)
    requires Inv(g, idom, rpo) && DepthFirst.Numbering(g, rpo, rord) && PredLists(g, preds) && 0 < b < |g|
    requires |rpo| == |g| && KnownBelow(g, idom, rord, rpo[b]) && Progress(g, idom, rpo, k, rpo[b])
    requires Known(idom, b) || !Avoids(g, idom, rpo, |g|, 0) || !Reachable(g, b)
    ensures Inv(g, next, rpo) && (Reachable(g, b) <==> Known(next, b))
    ensures forall c: nat :: Known(idom, c) ==> Known(next, c)
    ensures !changed ==> next == idom && Fixed(g, idom, rpo, b)
    ensures Progress(g, next, rpo, k, rpo[b] + 1)
    ensures Avoids(g, idom, rpo, |g|, 0) ==> !changed
  {
    hide Inv, Meets, Chain, DepthFirst.Numbering, Reachable, Dominates, KnownBelow, Under, Covers, PredLists, Progress,
         Avoids;
    InvParts(g, idom, rpo);
    hide Tree;
    NumberingInjective(g, rpo, rord);
    PredsInRange(g, preds, b);
    next, changed := idom, false;
    var x := MeetOf(idom, rpo, preds[b]);
    MeetFacts(g, preds, idom, rpo, rord, b, x);
    if x == NONE {
      SkipProgress(g, idom, rpo, rord, b, k);
      return;
    }
    VisitProgress(g, idom, rpo, rord, b, x, k);
    if idom[b] != x {
      UpdateInv(g, idom, rpo, b, x);
      next, changed := idom[b := x], true;
    } else {
      assert idom[b := x] == idom;
    }
  }

  /** One pass in numbering order.  A pass that changes nothing proves the table settled. */
  method OnePass(g: Graph, preds: seq<seq<nat>>, rpo: seq<nat>, rord: seq<nat>, table: seq<int>, ghost k: nat)
      returns (idom: seq<int>, changed: bool)
    requires Inv(g, table, rpo) && DepthFirst.Numbering(g, rpo, rord) && PredLists(g, preds)
    requires Progress(g, table, rpo, k, 0)
    ensures Inv(g, idom, rpo) && Progress(g, idom, rpo, k + 1, 0)
    ensures !changed ==> Settled(g, idom, rpo)
    ensures Avoids(g, table, rpo, |g|, 0) ==> !changed
  {
    hide Inv, Chain, DepthFirst.Numbering, Reachable, KnownBelow, FixedBelow, PredLists, Settled, Tree, Fixed, Progress,
         Avoids;
    idom, changed := table, false;
    InvParts(g, table, rpo);
    PassStarts(g, idom, rpo, rord);
    for ri: nat := 0 to |g|
      invariant Inv(g, idom, rpo) && KnownBelow(g, idom, rord, ri) && Progress(g, idom, rpo, k, ri)
      invariant !changed ==> FixedBelow(g, idom, rpo, rord, ri)
      invariant Avoids(g, table, rpo, |g|, 0) ==> !changed && idom == table
    {
      NumberAt(g, rpo, rord, ri);
      InvParts(g, idom, rpo);
      var b := rord[ri];
      ghost var before := idom;
      if b != 0 {
        AllKnown(g, idom, rpo, b);
        var did;
        idom, did := Visit(g, preds, rpo, rord, idom, b, k);
        changed := changed || did;
      } else {
        EntryFixed(g, idom, rpo);
        SkipProgress(g, idom, rpo, rord, b, k);
      }
      PassStep(g, before, idom, rpo, rord, ri, changed);
    }
    WrapProgress(g, idom, rpo, rord, k);
    if !changed {
      PassSettles(g, idom, rpo, rord);
    }
  }

  /** After as many passes as there are blocks every reachable block is known. */
  lemma AllKnown(g: Graph, idom: seq<int>, rpo: seq<nat>, b: nat)
    requires b < |g|
    ensures Avoids(g, idom, rpo, |g|, 0) && Reachable(g, b) ==> Known(idom, b)
  {
    if Avoids(g, idom, rpo, |g|, 0) && Reachable(g, b) {
      var w :| PathTo(g, w, b);
      var d: nat := Fresh(w);
      var v := ShortPath(g, w, b, d);
      RetreatsBound(rpo, v);
      assert Retreats(rpo, v) < Turns(rpo, b, |g|, 0);
    }
  }

  /** A number that is not in the list. */
  ghost function Fresh(w: seq<nat>): (d: nat)
    ensures forall i :: 0 <= i < |w| ==> w[i] < d
  {
    if w == [] then 0
    else
      var d := Fresh(w[..|w| - 1]);
      var n := w[|w| - 1];
      if n < d then d else n + 1
  }

  lemma PassStarts(g: Graph, idom: seq<int>, rpo: seq<nat>, rord: seq<nat>)
    ensures KnownBelow(g, idom, rord, 0) && FixedBelow(g, idom, rpo, rord, 0)
  {
  }

  lemma NumberAt(g: Graph, rpo: seq<nat>, rord: seq<nat>, i: nat)
    requires DepthFirst.Numbering(g, rpo, rord) && i < |g|
    ensures |rpo| == |rord| == |g| && rord[i] < |g| && rpo[rord[i]] == i
  {
  }

  lemma EntryFixed(g: Graph, idom: seq<int>, rpo: seq<nat>)
    requires Inv(g, idom, rpo)
    ensures Known(idom, 0) && Fixed(g, idom, rpo, 0)
  {
  }

  lemma PassStep(g: Graph, before: seq<int>, idom: seq<int>, rpo: seq<nat>, rord: seq<nat>, n: nat, changed: bool)
    requires n < |rord| && KnownBelow(g, before, rord, n) && forall c: nat :: Known(before, c) ==> Known(idom, c)
    requires Reachable(g, rord[n]) ==> Known(idom, rord[n])
    requires !changed ==> idom == before && FixedBelow(g, before, rpo, rord, n) && Fixed(g, before, rpo, rord[n])
    ensures KnownBelow(g, idom, rord, n + 1) && (!changed ==> FixedBelow(g, idom, rpo, rord, n + 1))
  {
    hide Reachable, Fixed;
  }

  lemma PassSettles(g: Graph, idom: seq<int>, rpo: seq<nat>, rord: seq<nat>)
    requires Inv(g, idom, rpo) && DepthFirst.Numbering(g, rpo, rord)
    requires KnownBelow(g, idom, rord, |g|) && FixedBelow(g, idom, rpo, rord, |g|)
    ensures Tree(idom, rpo) && Settled(g, idom, rpo)
  {
    hide Reachable, Meets, Chain, Dominates, Above;
    assert Tree(idom, rpo);
    forall b: nat | b < |g|
      ensures Reachable(g, b) ==> Known(idom, b)
      ensures Fixed(g, idom, rpo, b)
    {
      assert b == rord[rpo[b]] && rpo[b] < |g|;
    }
  }

  // ---- The whole iteration ----

  lemma StartInv(g: Graph, rpo: seq<nat>, idom: seq<int>)
    requires Valid(g) && |rpo| == |g| == |idom| <= NONE && idom[0] == 0
    requires forall b :: 1 <= b < |g| ==> idom[b] == NONE
    ensures Inv(g, idom, rpo)
  {
    EntryReachable(g);
    assert PathTo(g, [0], 0);
  }

  /** Each chain holds exactly the dominators of its block, and unreachable blocks have none. */
  ghost predicate ExactDominators(g: Graph, idom: seq<int>, rpo: seq<nat>) {
    && Tree(idom, rpo) && |idom| == |g|
    && (forall b: nat :: b < |g| ==> (Known(idom, b) <==> Reachable(g, b)))
    && (forall b: nat, d: nat :: Known(idom, b) ==> (d in Chain(idom, rpo, b) <==> Dominates(g, d, b)))
  }

  lemma SettledIsExact(g: Graph, idom: seq<int>, rpo: seq<nat>)
    requires Inv(g, idom, rpo) && Settled(g, idom, rpo)
    ensures ExactDominators(g, idom, rpo)
  {
    hide Chain, Dominates, Reachable, Above, Meets;
    forall b: nat, d: nat | Known(idom, b)
      ensures d in Chain(idom, rpo, b) <==> Dominates(g, d, b)
    {
      ChainIsDominators(g, idom, rpo, b, d);
    }
  }

  lemma ProgressStarts(g: Graph, rpo: seq<nat>, idom: seq<int>)
    requires Valid(g) && |rpo| == |g| == |idom| <= NONE && idom[0] == 0
    requires forall b :: 1 <= b < |g| ==> idom[b] == NONE
    ensures Progress(g, idom, rpo, 0, 0)
  {
    OrderlyStart(g, idom, rpo);
  }

  /** rs_bld_rpo followed by rs_dom.  Some pass changes nothing before the pass limit is reached, and
      then each chain holds exactly the dominators of its block. */
  method ComputeDominators(g: Graph) returns (idom: seq<int>, rpo: seq<nat>)
    requires Valid(g) && |g| <= DepthFirst.MAX_BLK && forall b :: 0 <= b < |g| ==> |g[b]| <= 2
    ensures ExactDominators(g, idom, rpo)
  {
    hide Inv, ExactDominators, DepthFirst.Numbering, PredLists, Settled, Progress, Avoids;
    var preds := BuildPreds(g);
    var rord;
    rpo, rord := DepthFirst.BuildRpo(g);
    idom := seq(|g|, i => if i == 0 then 0 else NONE);
    NumberAt(g, rpo, rord, 0);
    StartInv(g, rpo, idom);
    ProgressStarts(g, rpo, idom);
    var changed := true;
    var guard := |g| * 4;
    ghost var k := 0;
    while changed && guard > 0
      invariant Inv(g, idom, rpo) && Progress(g, idom, rpo, k, 0)
      invariant guard + k == |g| * 4 && (changed ==> k <= |g|)
      invariant !changed ==> Tree(idom, rpo) && Settled(g, idom, rpo)
      decreases guard
    {
      guard := guard - 1;
      ProgressParts(g, idom, rpo, k);
      idom, changed := OnePass(g, preds, rpo, rord, idom, k);
      k := k + 1;
      InvParts(g, idom, rpo);
    }
    SettledIsExact(g, idom, rpo);
  }

  lemma ProgressParts(g: Graph, idom: seq<int>, rpo: seq<nat>, k: nat)
    requires Progress(g, idom, rpo, k, 0)
    ensures k == |g| ==> Avoids(g, idom, rpo, |g|, 0)
  {
  }
}
