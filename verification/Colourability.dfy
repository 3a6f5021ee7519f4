/** When a graph can be coloured: by simplify alone, or at all; and why merging two nodes under the
    conservative test keeps both. */
module Colourability {
  import FiniteSets
  import opened Coalescing

  /** The neighbours of x within vs. */
  ghost function Neighbours(g: Graph, vs: set<nat>, x: nat): set<nat> {
    set m | m in vs && m != x && (x, m) in g
  }

  /** Some node of s has fewer neighbours in s than colours to choose from. */
  ghost predicate HasLow(g: Graph, s: set<nat>, ks: seq<nat>) {
    exists x :: x in s && x < |ks| && |Neighbours(g, s, x)| < ks[x]
  }

  /** Every part of the graph has such a node: taking them out one at a time empties it. */
  ghost predicate Reducible(g: Graph, vs: set<nat>, ks: seq<nat>) {
    forall s: set<nat> :: s <= vs && s != {} ==> HasLow(g, s, ks)
  }

  ghost predicate Within(vs: set<nat>, ks: seq<nat>) {
    forall x :: x in vs ==> x < |ks|
  }

  /** A colour below its bound for every node, different at the two ends of an edge. */
  ghost predicate Proper(g: Graph, vs: set<nat>, ks: seq<nat>, c: map<nat, nat>) {
    && Within(vs, ks) && c.Keys == vs
    && (forall x :: x in vs ==> c[x] < ks[x])
    && (forall x, y :: x in vs && y in vs && x != y && (x, y) in g ==> c[x] != c[y])
  }

  ghost predicate Colourable(g: Graph, vs: set<nat>, ks: seq<nat>) {
    exists c :: Proper(g, vs, ks, c)
  }

  /** g' is g with b merged into a, as far as the nodes other than b go. */
  ghost predicate MergedInto(g: Graph, g': Graph, vs: set<nat>, a: nat, b: nat) {
    forall x, y :: x in vs && y in vs && x != b && y != b && x != y ==>
      ((x, y) in g' <==> (x, y) in g || (x == a && (b, y) in g) || (y == a && (b, x) in g))
  }

  /** The neighbours of a that keep a degree of at least their bound. */
  ghost function Crowding(g: Graph, vs: set<nat>, ks: seq<nat>, a: nat): set<nat> {
    set m | m in Neighbours(g, vs, a) && m < |ks| && |Neighbours(g, vs, m)| >= ks[m]
  }

  lemma FewerNeighbours(g: Graph, s: set<nat>, vs: set<nat>, x: nat)
    requires s <= vs
    ensures |Neighbours(g, s, x)| <= |Neighbours(g, vs, x)|
  {
    FiniteSets.SubsetSize(Neighbours(g, s, x), Neighbours(g, vs, x));
  }

  /** A merge that passes the test leaves simplify a graph it can still empty. */
  lemma MergeKeepsReducible(g: Graph, g': Graph, vs: set<nat>, ks: seq<nat>, a: nat, b: nat)
    requires a in vs && b in vs && a != b && Within(vs, ks) && MergedInto(g, g', vs, a, b)
    requires |Crowding(g', vs - {b}, ks, a)| < ks[a] && Reducible(g, vs, ks)
    ensures Reducible(g', vs - {b}, ks)
  {
    forall s: set<nat> | s <= vs - {b} && s != {}
      ensures HasLow(g', s, ks)
    {
      if a !in s {
        assert HasLow(g, s, ks);
        var x :| x in s && x < |ks| && |Neighbours(g, s, x)| < ks[x];
        assert Neighbours(g', s, x) == Neighbours(g, s, x);
      } else if x :| x in s && |Neighbours(g', vs - {b}, x)| < ks[x] {
        FewerNeighbours(g', s, vs - {b}, x);
      } else {
        FiniteSets.SubsetSize(Neighbours(g', s, a), Crowding(g', vs - {b}, ks, a));
      }
    }
  }

  // ---- Extending a colouring ----

  lemma {:induction false} ColoursOf(s: set<nat>, c: map<nat, nat>, used: set<nat>)
    requires s <= c.Keys && forall r :: r in used ==> exists y :: y in s && c[y] == r
    ensures |used| <= |s|
    decreases used
  {
    if used != {} {
      var r := FiniteSets.Pick(used);
      var y :| y in s && c[y] == r;
      forall q | q in used - {r}
        ensures exists z :: z in s - {y} && c[z] == q
      {
        var z :| z in s && c[z] == q;
        assert z in s - {y};
      }
      ColoursOf(s - {y}, c, used - {r});
    }
  }

  lemma FreeBelow(used: set<nat>, n: nat) returns (r: nat)
    requires |used| < n
    ensures r < n && r !in used
    decreases n
  {
    if n - 1 in used {
      r := FreeBelow(used - {n - 1}, n - 1);
    } else {
      r := n - 1;
    }
  }

  /** One more node, with fewer coloured neighbours than it has colours. */
  lemma ExtendOne(g: Graph, s: set<nat>, ks: seq<nat>, x: nat)
    requires Colourable(g, s, ks) && Symmetric(g) && x !in s && x < |ks| && |Neighbours(g, s, x)| < ks[x]
    ensures Colourable(g, s + {x}, ks)
  {
    var c :| Proper(g, s, ks, c);
    var around := Neighbours(g, s, x);
    var used := set y | y in around :: c[y];
    ColoursOf(around, c, used);
    var r := FreeBelow(used, ks[x]);
    var c' := c[x := r];
    forall y | y in s && (x, y) in g
      ensures c'[y] != r
    {
      assert y in around;
    }
    assert Proper(g, s + {x}, ks, c');
  }

  /** The nodes of `more` one after the other, each of low degree in the whole graph. */
  lemma {:induction false} ExtendAll(g: Graph, s: set<nat>, more: set<nat>, vs: set<nat>, ks: seq<nat>)
    requires Colourable(g, s, ks) && Symmetric(g) && s + more <= vs && s !! more
    requires forall x :: x in more ==> x < |ks| && |Neighbours(g, vs, x)| < ks[x]
    ensures Colourable(g, s + more, ks)
    decreases more
  {
    if more == {} {
      assert s + more == s;
    } else {
      var x := FiniteSets.Pick(more);
      FewerNeighbours(g, s, vs, x);
      ExtendOne(g, s, ks, x);
      ExtendAll(g, s + {x}, more - {x}, vs, ks);
      assert (s + {x}) + (more - {x}) == s + more;
    }
  }

  lemma AwayFromMerge(g: Graph, g': Graph, vs: set<nat>, ks: seq<nat>, a: nat, b: nat, rest: set<nat>)
    requires MergedInto(g, g', vs, a, b) && rest <= vs - {a, b} && Colourable(g, vs, ks)
    ensures Colourable(g', rest, ks)
  {
    var c :| Proper(g, vs, ks, c);
    assert Proper(g', rest, ks, map x | x in rest :: c[x]);
  }

  /** A merge that passes the test leaves a colourable graph colourable: colour everything but the
      merged node and its low neighbours as before, then that node, then those neighbours. */
  lemma MergeKeepsColourable(g: Graph, g': Graph, vs: set<nat>, ks: seq<nat>, a: nat, b: nat)
    requires a in vs && b in vs && a != b && Within(vs, ks) && MergedInto(g, g', vs, a, b) && Symmetric(g')
    requires |Crowding(g', vs - {b}, ks, a)| < ks[a] && Colourable(g, vs, ks)
    ensures Colourable(g', vs - {b}, ks)
  {
    hide Colourable, MergedInto;
    var vs', crowding := vs - {b}, Crowding(g', vs - {b}, ks, a);
    var low := Neighbours(g', vs', a) - crowding;
    var rest := vs' - {a} - low;
    AwayFromMerge(g, g', vs, ks, a, b, rest);
    FiniteSets.SubsetSize(Neighbours(g', rest, a), crowding);
    ExtendOne(g', rest, ks, a);
    ExtendAll(g', rest + {a}, low, vs', ks);
    assert rest + {a} + low == vs';
  }
}
