/** Lists of distinct numbers below a bound. */
module Permutations {

  ghost predicate Partial(n: nat, ord: seq<nat>) {
    && (forall i :: 0 <= i < |ord| ==> ord[i] < n)
    && (forall i, j :: 0 <= i < j < |ord| ==> ord[i] != ord[j])
  }

  ghost predicate Permutation(n: nat, ord: seq<nat>) {
    Partial(n, ord) && |ord| == n && forall b: nat :: b < n ==> b in ord
  }

  lemma {:induction false} Pigeonhole(n: nat, ord: seq<nat>)
    requires Partial(n, ord)
    ensures |ord| <= n
    ensures |ord| == n ==> forall b: nat :: b < n ==> b in ord
    decreases n
  {
    if |ord| > 0 {
      assert ord[0] < n;
    }
    if n > 0 {
      var m := n - 1;
      if m in ord {
        var k :| 0 <= k < |ord| && ord[k] == m;
        var cut := ord[..k] + ord[k + 1..];
        Pigeonhole(m, cut);
        assert forall b :: b in cut ==> b in ord;
      } else {
        Pigeonhole(m, ord);
      }
    }
  }

  lemma AppendPartial(n: nat, ord: seq<nat>, b: nat)
    requires Partial(n, ord) && b < n && b !in ord
    ensures Partial(n, ord + [b]) && |ord| < n
  {
    Pigeonhole(n, ord + [b]);
  }

  lemma AllPlaced(n: nat, ord: seq<nat>, bi: nat)
    requires Partial(n, ord) && (bi == n || |ord| >= n) && forall b: nat :: b < bi ==> b in ord
    ensures Permutation(n, ord)
  {
    Pigeonhole(n, ord);
    if |ord| < n {
      Missing(n, ord);
    }
  }

  /** A short list of distinct blocks misses one. */
  lemma {:induction false} Missing(n: nat, ord: seq<nat>)
    requires Partial(n, ord) && |ord| < n
    ensures exists b: nat :: b < n && b !in ord
    decreases n
  {
    var m := n - 1;
    if m in ord {
      var k :| 0 <= k < |ord| && ord[k] == m;
      var cut := ord[..k] + ord[k + 1..];
      Missing(m, cut);
      var b: nat :| b < m && b !in cut;
      assert b !in ord;
    }
  }
}
