/** Linear-scan register allocation over live intervals: the set kept in registers, and why no
    other choice keeps more. */
module LinearScanSpec {

  import FiniteSets
  import opened Registers

  /** A live interval, both ends included. */
  datatype Interval = Interval(start: nat, end: nat, file: File)

  // ---- Sets of intervals ----

  predicate Covers(iv: Interval, p: int) {
    iv.start <= p <= iv.end
  }

  predicate Overlap(a: Interval, b: Interval) {
    a.start <= b.end && b.start <= a.end
  }

  ghost predicate Indices(ivs: seq<Interval>, s: set<nat>) {
    forall v :: v in s ==> v < |ivs|
  }

  /** The members of s live at point p. */
  ghost function LiveAt(ivs: seq<Interval>, s: set<nat>, p: int): set<nat>
    requires Indices(ivs, s)
  {
    set v | v in s && Covers(ivs[v], p)
  }

  /** At most k members of s are live at any one point. */
  ghost predicate Fits(ivs: seq<Interval>, k: nat, s: set<nat>)
    requires Indices(ivs, s)
  {
    forall p: int :: |LiveAt(ivs, s, p)| <= k
  }

  /** The members of s that have ended before t. */
  ghost function Ended(ivs: seq<Interval>, s: set<nat>, t: int): set<nat>
    requires Indices(ivs, s)
  {
    set v | v in s && ivs[v].end < t
  }

  /** The members of s that have not. */
  ghost function Pending(ivs: seq<Interval>, s: set<nat>, t: int): set<nat>
    requires Indices(ivs, s)
  {
    set v | v in s && ivs[v].end >= t
  }

  lemma EndedPlusPending(ivs: seq<Interval>, s: set<nat>, t: int)
    requires Indices(ivs, s)
    ensures |s| == |Ended(ivs, s, t)| + |Pending(ivs, s, t)|
  {
    assert s == Ended(ivs, s, t) + Pending(ivs, s, t);
  }

  /** Every set that fits, drawn from the same candidates, has at every later time ended at most
      as many intervals as a. */
  ghost predicate Dominates(ivs: seq<Interval>, k: nat, candidates: set<nat>, a: set<nat>, cur: int)
    requires Indices(ivs, candidates) && a <= candidates
  {
    forall s: set<nat>, t: int :: s <= candidates && Fits(ivs, k, s) && t >= cur ==>
      |Ended(ivs, s, t)| <= |Ended(ivs, a, t)|
  }

  lemma {:induction false} LatestEnd(ivs: seq<Interval>, s: set<nat>) returns (t: int)
    requires Indices(ivs, s)
    ensures forall v :: v in s ==> ivs[v].end < t
    ensures t >= 0
  {
    t := 0;
    var rest := s;
    while rest != {}
      invariant rest <= s && t >= 0
      invariant forall v :: v in s - rest ==> ivs[v].end < t
      decreases |rest|
    {
      var v :| v in rest;
      rest := rest - {v};
      if ivs[v].end >= t {
        t := ivs[v].end + 1;
      }
    }
  }

  /** A dominating set is a largest one. */
  lemma DominatingIsLargest(ivs: seq<Interval>, k: nat, candidates: set<nat>, a: set<nat>, cur: int, s: set<nat>)
    requires Indices(ivs, candidates) && a <= candidates
    requires Dominates(ivs, k, candidates, a, cur)
    requires s <= candidates && Fits(ivs, k, s)
    ensures |s| <= |a|
  {
    var t := LatestEnd(ivs, candidates);
    var u := if t >= cur then t else cur;
    assert Ended(ivs, s, u) == s;
    assert Ended(ivs, a, u) == a;
  }

  lemma FitsSubset(ivs: seq<Interval>, k: nat, s: set<nat>, s': set<nat>)
    requires Indices(ivs, s) && Fits(ivs, k, s) && s' <= s
    ensures Indices(ivs, s') && Fits(ivs, k, s')
  {
    forall p: int
      ensures |LiveAt(ivs, s', p)| <= k
    {
      FiniteSets.SubsetSize(LiveAt(ivs, s', p), LiveAt(ivs, s, p));
    }
  }

  /** Adding the arriving interval to the candidates: sets that leave it out are still dominated,
      whatever improvement a' makes on a. */
  lemma WithoutNewcomer(ivs: seq<Interval>, k: nat, candidates: set<nat>, a: set<nat>, cur: int,
                        v: nat, s: set<nat>, t: int)
    requires v < |ivs| && Indices(ivs, candidates) && a <= candidates && v !in candidates
    requires Dominates(ivs, k, candidates, a, cur)
    requires s <= candidates + {v} && Fits(ivs, k, s) && t >= cur
    ensures |Ended(ivs, s - {v}, t)| <= |Ended(ivs, a, t)|
  {
    FitsSubset(ivs, k, s, s - {v});
    assert s - {v} <= candidates;
  }

  lemma EndedWithout(ivs: seq<Interval>, s: set<nat>, v: nat, t: int)
    requires Indices(ivs, s)
    ensures Indices(ivs, s - {v})
    ensures v in s && v < |ivs| && ivs[v].end < t ==> |Ended(ivs, s, t)| == |Ended(ivs, s - {v}, t)| + 1
    ensures !(v in s && v < |ivs| && ivs[v].end < t) ==> |Ended(ivs, s, t)| == |Ended(ivs, s - {v}, t)|
  {
    if v in s && ivs[v].end < t {
      assert Ended(ivs, s, t) == Ended(ivs, s - {v}, t) + {v};
    } else {
      assert Ended(ivs, s, t) == Ended(ivs, s - {v}, t);
    }
  }

  /** When every register is busy, a has strictly more members than any rival has without the
      newcomer. */
  lemma FullMeansMore(ivs: seq<Interval>, k: nat, candidates: set<nat>, a: set<nat>, cur: int, v: nat, s: set<nat>)
    requires v < |ivs| && Indices(ivs, candidates) && a <= candidates && v !in candidates
    requires Dominates(ivs, k, candidates, a, cur)
    requires s <= candidates + {v} && Fits(ivs, k, s) && v in s
    requires ivs[v].start == cur <= ivs[v].end
    requires forall u :: u in candidates ==> ivs[u].start <= cur
    requires |Pending(ivs, a, cur)| >= k
    ensures |s| <= |a|
  {
    var s0 := s - {v};
    WithoutNewcomer(ivs, k, candidates, a, cur, v, s, cur);
    EndedPlusPending(ivs, s0, cur);
    EndedPlusPending(ivs, a, cur);
    assert LiveAt(ivs, s, cur) >= Pending(ivs, s0, cur) + {v};
    FiniteSets.SubsetSize(Pending(ivs, s0, cur) + {v}, LiveAt(ivs, s, cur));
    assert |Pending(ivs, s0, cur) + {v}| == |Pending(ivs, s0, cur)| + 1;
    assert s == s0 + {v};
  }

  /** A free register: keep the newcomer. */
  lemma TakeDominates(ivs: seq<Interval>, k: nat, candidates: set<nat>, a: set<nat>, cur: int, v: nat)
    requires v < |ivs| && Indices(ivs, candidates) && a <= candidates && v !in candidates
    requires Dominates(ivs, k, candidates, a, cur)
    ensures Dominates(ivs, k, candidates + {v}, a + {v}, cur)
  {
    forall s: set<nat>, t: int | s <= candidates + {v} && Fits(ivs, k, s) && t >= cur
      ensures |Ended(ivs, s, t)| <= |Ended(ivs, a + {v}, t)|
    {
      WithoutNewcomer(ivs, k, candidates, a, cur, v, s, t);
      EndedWithout(ivs, s, v, t);
      EndedWithout(ivs, a + {v}, v, t);
      assert a + {v} - {v} == a;
    }
  }

  lemma AllEnded(ivs: seq<Interval>, a: set<nat>, cur: int, t: int)
    requires Indices(ivs, a) && t >= cur
    requires forall u :: u in Pending(ivs, a, cur) ==> ivs[u].end < t
    ensures Ended(ivs, a, t) == a
  {
    forall u | u in a
      ensures ivs[u].end < t
    {
      if ivs[u].end >= cur {
        assert u in Pending(ivs, a, cur);
      }
    }
  }

  /** No free register and some active interval ends later: swap it for the newcomer. */
  lemma EvictDominates(ivs: seq<Interval>, k: nat, candidates: set<nat>, a: set<nat>, cur: int, v: nat, far: nat)
    requires v < |ivs| && Indices(ivs, candidates) && a <= candidates && v !in candidates
    requires Dominates(ivs, k, candidates, a, cur)
    requires ivs[v].start == cur <= ivs[v].end && forall u :: u in candidates ==> ivs[u].start <= cur
    requires |Pending(ivs, a, cur)| >= k
    requires far in Pending(ivs, a, cur) && ivs[far].end > ivs[v].end
    requires forall u :: u in Pending(ivs, a, cur) ==> ivs[u].end <= ivs[far].end
    ensures Dominates(ivs, k, candidates + {v}, a + {v} - {far}, cur)
  {
    var a' := a + {v} - {far};
    forall s: set<nat>, t: int | s <= candidates + {v} && Fits(ivs, k, s) && t >= cur
      ensures |Ended(ivs, s, t)| <= |Ended(ivs, a', t)|
    {
      WithoutNewcomer(ivs, k, candidates, a, cur, v, s, t);
      EndedWithout(ivs, s, v, t);
      EndedWithout(ivs, a', v, t);
      EndedWithout(ivs, a, far, t);
      assert a' - {v} == a - {far};
      if ivs[far].end < t && v in s {
        FullMeansMore(ivs, k, candidates, a, cur, v, s);
        AllEnded(ivs, a, cur, t);
        FiniteSets.SubsetSize(Ended(ivs, s, t), s);
      }
    }
  }

  /** No free register and the newcomer ends last: leave it out. */
  lemma SelfSpillDominates(ivs: seq<Interval>, k: nat, candidates: set<nat>, a: set<nat>, cur: int, v: nat)
    requires v < |ivs| && Indices(ivs, candidates) && a <= candidates && v !in candidates
    requires Dominates(ivs, k, candidates, a, cur)
    requires ivs[v].start == cur <= ivs[v].end && forall u :: u in candidates ==> ivs[u].start <= cur
    requires |Pending(ivs, a, cur)| >= k
    requires forall u :: u in Pending(ivs, a, cur) ==> ivs[u].end <= ivs[v].end
    ensures Dominates(ivs, k, candidates + {v}, a, cur)
  {
    forall s: set<nat>, t: int | s <= candidates + {v} && Fits(ivs, k, s) && t >= cur
      ensures |Ended(ivs, s, t)| <= |Ended(ivs, a, t)|
    {
      WithoutNewcomer(ivs, k, candidates, a, cur, v, s, t);
      EndedWithout(ivs, s, v, t);
      if ivs[v].end < t && v in s {
        FullMeansMore(ivs, k, candidates, a, cur, v, s);
        AllEnded(ivs, a, cur, t);
        FiniteSets.SubsetSize(Ended(ivs, s, t), s);
      }
    }
  }

  /** Time only narrows the obligation. */
  lemma LaterDominates(ivs: seq<Interval>, k: nat, candidates: set<nat>, a: set<nat>, cur: int, cur': int)
    requires Indices(ivs, candidates) && a <= candidates && cur <= cur'
    requires Dominates(ivs, k, candidates, a, cur)
    ensures Dominates(ivs, k, candidates, a, cur')
  {
  }
}
