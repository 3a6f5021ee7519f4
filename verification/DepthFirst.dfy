/** rs_bld_rpo: the depth-first numbering of the blocks, with an explicit stack. */
module DepthFirst {
  import FiniteSets
  import opened Dominance

  const MAX_BLK: nat := 4096

  /** A stack entry: a block and the index of the successor to look at next. */
  datatype Frame = Frame(blk: nat, si: nat)

  // ---- Positions ----

  /** Positions pos and above hold exactly the blocks of done, and rpo and rord are inverse there. */
  ghost predicate Numbered(n: nat, rpo: seq<nat>, rord: seq<nat>, pos: nat, done: set<nat>) {
    && |rpo| == |rord| == n && pos <= n && |done| == n - pos
    && (forall b :: b in done ==> b < n && pos <= rpo[b] < n && rord[rpo[b]] == b)
    && (forall i: nat :: pos <= i < n ==> rord[i] in done && rpo[rord[i]] == i)
  }

  /** Taking the next position down for a block that has none. */
  lemma NumberOne(n: nat, rpo: seq<nat>, rord: seq<nat>, pos: nat, done: set<nat>, b: nat)
    requires Numbered(n, rpo, rord, pos, done) && b < n && b !in done
    ensures pos > 0 && Numbered(n, rpo[b := pos - 1], rord[pos - 1 := b], pos - 1, done + {b})
  {
    FiniteSets.BelowSize(done + {b}, n);
    assert |done + {b}| == |done| + 1;
  }

  // ---- The search ----

  ghost function Blocks(stk: seq<Frame>): set<nat> {
    set i | 0 <= i < |stk| :: stk[i].blk
  }

  lemma BlocksPush(stk: seq<Frame>, f: Frame)
    ensures Blocks(stk + [f]) == Blocks(stk) + {f.blk}
  {
    var t := stk + [f];
    assert t[|stk|] == f;
    forall x | x in Blocks(stk) + {f.blk}
      ensures x in Blocks(t)
    {
      if x != f.blk {
        var i :| 0 <= i < |stk| && stk[i].blk == x;
        assert t[i].blk == x;
      }
    }
  }

  /** The stack is a path of the graph from the entry, without repetition. */
  ghost predicate StackPath(g: Graph, stk: seq<Frame>) {
    && (forall i :: 0 <= i < |stk| ==> stk[i].blk < |g| && stk[i].si <= |g[stk[i].blk]|)
    && (forall i, j :: 0 <= i < j < |stk| ==> stk[i].blk != stk[j].blk)
    && (forall i :: 0 <= i < |stk| - 1 ==> stk[i + 1].blk in g[stk[i].blk])
    && (|stk| > 0 ==> stk[0].blk == 0)
  }

  predicate Edge(g: Graph, b: nat, j: nat) {
    b < |g| && j < |g[b]|
  }

  /** Successors already looked at have been visited. */
  ghost predicate Closed(g: Graph, vis: set<nat>, done: set<nat>, stk: seq<Frame>) {
    && (forall b, s: nat :: b in done && b < |g| && s in g[b] ==> s in vis)
    && (forall i, j :: 0 <= i < |stk| && 0 <= j < stk[i].si && Edge(g, stk[i].blk, j) ==> g[stk[i].blk][j] in vis)
  }

  /** A finished block was entered from a block that is still open or has a smaller number. */
  ghost predicate Entered(g: Graph, vis: set<nat>, done: set<nat>, rpo: seq<nat>, b: nat)
    requires |rpo| == |g|
  {
    exists p :: p in vis && Pred(g, p, b) && (p in done && b < |g| ==> rpo[p] < rpo[b])
  }

  ghost predicate Core(g: Graph, vis: set<nat>, done: set<nat>, stk: seq<Frame>, rpo: seq<nat>) {
    && |rpo| == |g| && StackPath(g, stk)
    && vis == done + Blocks(stk) && done !! Blocks(stk) && 0 in vis
    && (forall b :: b in vis ==> b < |g| && Reachable(g, b))
    && (forall b :: b in done && b != 0 ==> Entered(g, vis, done, rpo, b))
  }

  /** The state of the search: visited blocks are finished or on the stack. */
  ghost predicate Search(g: Graph, vis: set<nat>, done: set<nat>, stk: seq<Frame>, rpo: seq<nat>) {
    Core(g, vis, done, stk, rpo) && Closed(g, vis, done, stk)
  }

  /** Work left on the stack: each open block may still look at successors and then be closed. */
  ghost function Work(g: Graph, stk: seq<Frame>): int {
    if stk == [] then 0 else Work(g, stk[..|stk| - 1]) + FrameWork(g, stk[|stk| - 1])
  }

  ghost function FrameWork(g: Graph, f: Frame): int {
    (if f.blk < |g| then |g[f.blk]| else 0) - f.si + 1
  }

  lemma TopFrame(g: Graph, vis: set<nat>, done: set<nat>, stk: seq<Frame>, rpo: seq<nat>)
    requires Core(g, vis, done, stk, rpo) && |stk| > 0
    ensures var f := stk[|stk| - 1]; f.blk < |g| && f.blk in vis && f.blk !in done && f.si <= |g[f.blk]|
  {
    assert stk[|stk| - 1].blk in Blocks(stk);
  }

  lemma {:induction false} WorkNonNegative(g: Graph, stk: seq<Frame>)
    requires StackPath(g, stk)
    ensures Work(g, stk) >= |stk|
  {
    if stk != [] {
      WorkNonNegative(g, stk[..|stk| - 1]);
    }
  }

  /** The stack after its top frame moved on to the next successor. */
  ghost function Moved(stk: seq<Frame>): seq<Frame>
    requires |stk| > 0
  {
    stk[|stk| - 1 := Frame(stk[|stk| - 1].blk, stk[|stk| - 1].si + 1)]
  }

  /** The top frame looks at successor s. */
  ghost predicate LooksAt(g: Graph, stk: seq<Frame>, s: nat) {
    |stk| > 0 && var f := stk[|stk| - 1]; Edge(g, f.blk, f.si) && g[f.blk][f.si] == s
  }

  /** Looking at the next successor, which is in the wider set wide. */
  lemma Advance(g: Graph, vis: set<nat>, wide: set<nat>, done: set<nat>, stk: seq<Frame>, rpo: seq<nat>, s: nat)
    requires Search(g, vis, done, stk, rpo) && vis <= wide && LooksAt(g, stk, s) && s in wide
    ensures Core(g, vis, done, Moved(stk), rpo) && Closed(g, wide, done, Moved(stk))
    ensures Work(g, Moved(stk)) == Work(g, stk) - 1
  {
    hide Reachable, Entered, Search, Closed;
    AdvanceClosed(g, vis, wide, done, stk, rpo, s);
    var n := |stk| - 1;
    var f := stk[n];
    var stk' := Moved(stk);
    assert stk'[..n] == stk[..n];
    BlocksPush(stk[..n], f);
    BlocksPush(stk[..n], stk'[n]);
    assert stk == stk[..n] + [f] && stk' == stk[..n] + [stk'[n]];
  }

  lemma AdvanceClosed(g: Graph, vis: set<nat>, wide: set<nat>, done: set<nat>, stk: seq<Frame>, rpo: seq<nat>, s: nat)
    requires Search(g, vis, done, stk, rpo) && vis <= wide && LooksAt(g, stk, s) && s in wide
    ensures Core(g, vis, done, stk, rpo) && Closed(g, wide, done, Moved(stk))
  {
    hide Core;
  }

  /** Entering a successor for the first time. */
  lemma Push(g: Graph, vis: set<nat>, done: set<nat>, stk: seq<Frame>, rpo: seq<nat>, s: nat)
    requires Core(g, vis, done, stk, rpo) && |stk| > 0 && s < |g| && s !in vis && Closed(g, vis + {s}, done, stk)
    requires stk[|stk| - 1].blk < |g| && s in g[stk[|stk| - 1].blk]
    ensures Search(g, vis + {s}, done, stk + [Frame(s, 0)], rpo)
    ensures Work(g, stk + [Frame(s, 0)]) == Work(g, stk) + |g[s]| + 1
  {
    var n := |stk| - 1;
    var stk' := stk + [Frame(s, 0)];
    TopFrame(g, vis, done, stk, rpo);
    ReachableSuccessor(g, stk[n].blk, s);
    hide Reachable;
    BlocksPush(stk, Frame(s, 0));
    PushPath(g, stk, s);
    assert stk'[..|stk|] == stk;
    forall b | b in done && b != 0
      ensures Entered(g, vis + {s}, done, rpo, b)
    {
      assert Entered(g, vis, done, rpo, b);
      var p :| p in vis && Pred(g, p, b) && (p in done && b < |g| ==> rpo[p] < rpo[b]);
      assert p in vis + {s};
    }
  }

  lemma PushPath(g: Graph, stk: seq<Frame>, s: nat)
    requires StackPath(g, stk) && |stk| > 0 && s < |g| && s in g[stk[|stk| - 1].blk] && s !in Blocks(stk)
    ensures StackPath(g, stk + [Frame(s, 0)])
  {
    assert forall i :: 0 <= i < |stk| ==> stk[i].blk in Blocks(stk);
  }

  /** Closing the block on top of the stack and giving it the next position down. */
  lemma Pop(g: Graph, vis: set<nat>, done: set<nat>, stk: seq<Frame>, rpo: seq<nat>, pos: nat)
    requires Search(g, vis, done, stk, rpo) && |stk| > 0 && pos > 0
    requires forall b :: b in done ==> b < |g| && rpo[b] >= pos
    requires var f := stk[|stk| - 1]; f.blk < |g| && f.si == |g[f.blk]|
    ensures var n := |stk| - 1; var b := stk[n].blk;
            Search(g, vis, done + {b}, stk[..n], rpo[b := pos - 1]) && Work(g, stk[..n]) == Work(g, stk) - 1
  {
    hide Reachable, Entered, Closed;
    var n := |stk| - 1;
    var f := stk[n];
    TopFrame(g, vis, done, stk, rpo);
    BlocksPush(stk[..n], f);
    assert stk == stk[..n] + [f];
    assert f.blk !in Blocks(stk[..n]);
    PopClosed(g, vis, done, stk);
    PopEntered(g, vis, done, stk, rpo, pos);
  }

  lemma PopClosed(g: Graph, vis: set<nat>, done: set<nat>, stk: seq<Frame>)
    requires Closed(g, vis, done, stk) && |stk| > 0 && stk[|stk| - 1].blk < |g|
    requires stk[|stk| - 1].si == |g[stk[|stk| - 1].blk]|
    ensures Closed(g, vis, done + {stk[|stk| - 1].blk}, stk[..|stk| - 1])
  {
    var f := stk[|stk| - 1];
    forall s: nat | s in g[f.blk]
      ensures s in vis
    {
      var j :| 0 <= j < |g[f.blk]| && g[f.blk][j] == s;
      assert Edge(g, f.blk, j);
    }
  }

  lemma PopEntered(g: Graph, vis: set<nat>, done: set<nat>, stk: seq<Frame>, rpo: seq<nat>, pos: nat)
    requires Search(g, vis, done, stk, rpo) && |stk| > 0 && pos > 0
    requires forall b :: b in done ==> b < |g| && rpo[b] >= pos
    ensures stk[|stk| - 1].blk < |g|
    ensures var b := stk[|stk| - 1].blk;
            forall c :: c in done + {b} && c != 0 ==> Entered(g, vis, done + {b}, rpo[b := pos - 1], c)
  {
    hide Reachable, Closed;
    var n := |stk| - 1;
    var b := stk[n].blk;
    TopFrame(g, vis, done, stk, rpo);
    var done', rpo' := done + {b}, rpo[b := pos - 1];
    forall c | c in done' && c != 0
      ensures Entered(g, vis, done', rpo', c)
    {
      if c == b {
        assert n > 0;
        var p := stk[n - 1].blk;
        assert stk[n - 1 + 1].blk in g[stk[n - 1].blk];
        assert p in Blocks(stk) && p !in done && p != b;
        assert p in vis && Pred(g, p, b);
      } else {
        var p :| p in vis && Pred(g, p, c) && (p in done && c < |g| ==> rpo[p] < rpo[c]);
        assert p in vis && Pred(g, p, c) && (p in done' ==> rpo'[p] < rpo'[c]);
      }
    }
  }

  // ---- The result ----

  /** Every reachable block but the entry is entered from a reachable block of smaller number. */
  ghost predicate Lower(g: Graph, rpo: seq<nat>, b: nat)
    requires |rpo| == |g|
  {
    exists p: nat :: Pred(g, p, b) && Reachable(g, p) && b < |g| && rpo[p] < rpo[b]
  }

  /** rpo and rord are inverse numberings of all blocks; unreachable blocks come first. */
  ghost predicate Numbering(g: Graph, rpo: seq<nat>, rord: seq<nat>) {
    && |rpo| == |rord| == |g|
    && (forall b: nat :: b < |g| ==> rpo[b] < |g| && rord[rpo[b]] == b)
    && (forall i: nat :: i < |g| ==> rord[i] < |g| && rpo[rord[i]] == i)
    && (forall b: nat :: 0 < b < |g| && Reachable(g, b) ==> Lower(g, rpo, b))
    && (forall a: nat, b: nat :: a < |g| && b < |g| && !Reachable(g, a) && Reachable(g, b) ==> rpo[a] < rpo[b])
  }

  lemma {:induction false} PathVisited(g: Graph, vis: set<nat>, p: seq<nat>, b: nat)
    requires PathTo(g, p, b) && 0 in vis
    requires forall c, s: nat :: c in vis && c < |g| && s in g[c] ==> s in vis
    ensures b in vis
    decreases |p|
  {
    if |p| > 1 {
      var n := |p| - 1;
      assert p[n - 1 + 1] in g[p[n - 1]];
      PathVisited(g, vis, p[..n], p[n - 1]);
    }
  }

  /** When the stack is empty the visited blocks are the reachable ones, all of them numbered. */
  lemma SearchEnds(g: Graph, vis: set<nat>, done: set<nat>, rpo: seq<nat>)
    requires Search(g, vis, done, [], rpo)
    ensures vis == done
    ensures forall b: nat :: b < |g| ==> (b in vis <==> Reachable(g, b))
    ensures forall b: nat :: 0 < b < |g| && b in vis ==> Lower(g, rpo, b)
  {
    assert Blocks([]) == {};
    forall b: nat | b < |g| && Reachable(g, b)
      ensures b in vis
    {
      var p :| PathTo(g, p, b);
      PathVisited(g, vis, p, b);
    }
    forall b: nat | 0 < b < |g| && b in vis
      ensures Lower(g, rpo, b)
    {
      var p :| p in vis && Pred(g, p, b) && (p in done && b < |g| ==> rpo[p] < rpo[b]);
    }
  }

  lemma SearchStarts(g: Graph, rpo: seq<nat>)
    requires Valid(g) && |rpo| == |g|
    ensures Search(g, {0}, {}, [Frame(0, 0)], rpo)
    ensures Work(g, [Frame(0, 0)]) == |g[0]| + 1
  {
    var stk := [Frame(0, 0)];
    EntryReachable(g);
    assert stk[0].blk in Blocks(stk);
    assert stk[..0] == [];
  }

  /** The steps taken and the steps still possible never exceed three per block. */
  ghost predicate Budget(g: Graph, vis: set<nat>, stk: seq<Frame>, guard: nat) {
    |vis| <= |g| && guard + Work(g, stk) + 3 * (|g| - |vis|) <= 3 * |g|
  }

  lemma VisitedBound(g: Graph, vis: set<nat>, s: nat)
    requires (forall b :: b in vis ==> b < |g|) && s < |g| && s !in vis
    ensures |vis + {s}| == |vis| + 1 <= |g|
  {
    FiniteSets.BelowSize(vis + {s}, |g|);
  }

  /** The search proper.  Its step limit and the height of its stack are never reached, so the
      stack runs empty. */
  method DepthFirstSearch(g: Graph) returns (vis: set<nat>, rpo: seq<nat>, rord: seq<nat>, pos: nat)
    requires Valid(g) && |g| <= MAX_BLK && forall b :: 0 <= b < |g| ==> |g[b]| <= 2
    ensures Numbered(|g|, rpo, rord, pos, vis)
    ensures forall b: nat :: b < |g| ==> (b in vis <==> Reachable(g, b))
    ensures forall b: nat :: 0 < b < |g| && b in vis ==> Lower(g, rpo, b)
  {
    hide Search, Budget, StackPath, Reachable, Lower, Blocks, Valid, Numbered, Core, Closed, Work;
    vis := {0};
    rpo, rord := seq(|g|, _ => 0), seq(|g|, _ => 0);
    pos := |g|;
    var stk := [Frame(0, 0)];
    ghost var done: set<nat> := {};
    var guard: nat := 0;
    StartUp(g, rpo, rord);
    while |stk| > 0 && guard < MAX_BLK * 4
      invariant |rpo| == |rord| == |g| && pos <= |g|
      invariant Numbered(|g|, rpo, rord, pos, done) && Search(g, vis, done, stk, rpo)
      invariant Budget(g, vis, stk, guard)
      decreases MAX_BLK * 4 - guard
    {
      SearchParts(g, vis, done, stk, rpo);
      TopFrame(g, vis, done, stk, rpo);
      guard := guard + 1;
      var n := |stk| - 1;
      var b, si := stk[n].blk, stk[n].si;
      if si < |g[b]| {
        var s := g[b][si];
        SuccessorInRange(g, b, si);
        if s < |g| && s !in vis {
          Discover(g, vis, done, stk, rpo, guard - 1, s);
          stk := stk[n := Frame(b, si + 1)];
          vis := vis + {s};
          if |stk| < MAX_BLK {
            stk := stk + [Frame(s, 0)];
          }
        } else {
          Skip(g, vis, done, stk, rpo, guard - 1, s);
          stk := stk[n := Frame(b, si + 1)];
        }
      } else {
        Finish(g, vis, done, stk, rpo, rord, pos, guard - 1);
        stk := stk[..n];
        done := done + {b};
        if pos > 0 {
          pos := pos - 1;
          rord := rord[pos := b];
          rpo := rpo[b := pos];
        }
      }
    }
    SearchParts(g, vis, done, stk, rpo);
    StackEmpties(g, vis, stk, guard);
    SearchEnds(g, vis, done, rpo);
  }

  lemma SuccessorInRange(g: Graph, b: nat, i: nat)
    requires Valid(g) && b < |g| && i < |g[b]|
    ensures g[b][i] < |g|
  {
  }

  lemma StartUp(g: Graph, rpo: seq<nat>, rord: seq<nat>)
    requires Valid(g) && |rpo| == |rord| == |g| && forall b :: 0 <= b < |g| ==> |g[b]| <= 2
    ensures Numbered(|g|, rpo, rord, |g|, {}) && Search(g, {0}, {}, [Frame(0, 0)], rpo)
    ensures Budget(g, {0}, [Frame(0, 0)], 0)
  {
    SearchStarts(g, rpo);
  }

  /** What the search does when it finds a new block keeps its invariant and its budget. */
  lemma Discover(g: Graph, vis: set<nat>, done: set<nat>, stk: seq<Frame>, rpo: seq<nat>, guard: nat, s: nat)
    requires |g| <= MAX_BLK && s < |g| && |g[s]| <= 2
    requires Search(g, vis, done, stk, rpo) && Budget(g, vis, stk, guard) && LooksAt(g, stk, s) && s !in vis
    ensures |stk| < MAX_BLK && Search(g, vis + {s}, done, Moved(stk) + [Frame(s, 0)], rpo)
    ensures Budget(g, vis + {s}, Moved(stk) + [Frame(s, 0)], guard + 1)
  {
    hide Search, Core, StackPath, Closed, Entered, Reachable, Work;
    SearchParts(g, vis, done, stk, rpo);
    VisitedBound(g, vis, s);
    Advance(g, vis, vis + {s}, done, stk, rpo, s);
    Push(g, vis, done, Moved(stk), rpo, s);
  }

  lemma Skip(g: Graph, vis: set<nat>, done: set<nat>, stk: seq<Frame>, rpo: seq<nat>, guard: nat, s: nat)
    requires Search(g, vis, done, stk, rpo) && Budget(g, vis, stk, guard) && LooksAt(g, stk, s) && s in vis
    ensures Search(g, vis, done, Moved(stk), rpo) && Budget(g, vis, Moved(stk), guard + 1)
  {
    hide Core, Closed, Work;
    Advance(g, vis, vis, done, stk, rpo, s);
  }

  lemma Finish(g: Graph, vis: set<nat>, done: set<nat>, stk: seq<Frame>, rpo: seq<nat>, rord: seq<nat>, pos: nat,
      guard: nat)
    requires Search(g, vis, done, stk, rpo) && |stk| > 0 && Budget(g, vis, stk, guard)
    requires var f := stk[|stk| - 1]; f.blk < |g| && f.si == |g[f.blk]|
    requires Numbered(|g|, rpo, rord, pos, done)
    ensures var n := |stk| - 1; var b := stk[n].blk;
            && pos > 0 && Numbered(|g|, rpo[b := pos - 1], rord[pos - 1 := b], pos - 1, done + {b})
            && Search(g, vis, done + {b}, stk[..n], rpo[b := pos - 1])
            && Budget(g, vis, stk[..n], guard + 1)
  {
    hide Closed, Entered, Reachable, Work;
    TopFrame(g, vis, done, stk, rpo);
    NumberOne(|g|, rpo, rord, pos, done, stk[|stk| - 1].blk);
    Pop(g, vis, done, stk, rpo, pos);
  }

  lemma StackEmpties(g: Graph, vis: set<nat>, stk: seq<Frame>, guard: nat)
    requires |g| <= MAX_BLK && StackPath(g, stk) && Budget(g, vis, stk, guard)
    requires |stk| == 0 || guard >= MAX_BLK * 4
    requires |g| > 0
    ensures stk == []
  {
    WorkNonNegative(g, stk);
  }

  lemma SearchParts(g: Graph, vis: set<nat>, done: set<nat>, stk: seq<Frame>, rpo: seq<nat>)
    requires Search(g, vis, done, stk, rpo)
    ensures StackPath(g, stk) && Core(g, vis, done, stk, rpo) && (forall b :: b in vis ==> b < |g|)
    ensures |stk| <= |vis|
  {
    StackHeight(stk);
    assert Blocks(stk) <= vis;
    FiniteSets.SubsetSize(Blocks(stk), vis);
  }

  lemma {:induction false} StackHeight(stk: seq<Frame>)
    requires forall i, j :: 0 <= i < j < |stk| ==> stk[i].blk != stk[j].blk
    ensures |Blocks(stk)| == |stk|
  {
    if stk != [] {
      var n := |stk| - 1;
      StackHeight(stk[..n]);
      BlocksPush(stk[..n], stk[n]);
      assert stk == stk[..n] + [stk[n]];
      assert stk[n].blk !in Blocks(stk[..n]);
    } else {
      assert Blocks(stk) == {};
    }
  }

  /** rs_bld_rpo.  Blocks the search did not reach take the positions that are left, which are the
      lowest. */
  method BuildRpo(g: Graph) returns (rpo: seq<nat>, rord: seq<nat>)
    requires Valid(g) && |g| <= MAX_BLK && forall b :: 0 <= b < |g| ==> |g[b]| <= 2
    ensures Numbering(g, rpo, rord)
  {
    hide Reachable, Lower, Numbering;
    var vis: set<nat>, pos: nat;
    vis, rpo, rord, pos := DepthFirstSearch(g);
    ghost var first, top := rpo, pos;
    ghost var done := vis;
    for bi: nat := 0 to |g|
      invariant Numbered(|g|, rpo, rord, pos, done) && pos <= top
      invariant forall b: nat :: b in done <==> b in vis || b < bi
      invariant forall b: nat :: b < |g| ==> if b in vis then rpo[b] == first[b] else b < bi ==> rpo[b] < top
    {
      if bi !in vis {
        NumberOne(|g|, rpo, rord, pos, done, bi);
        if pos > 0 {
          pos := pos - 1;
          rord := rord[pos := bi];
          rpo := rpo[bi := pos];
        }
        done := done + {bi};
      }
    }
    AllNumbered(g, vis, first, top, rpo, rord, pos, done);
  }

  lemma AllNumbered(g: Graph, vis: set<nat>, first: seq<nat>, top: nat, rpo: seq<nat>, rord: seq<nat>, pos: nat,
      done: set<nat>)
    requires Numbered(|g|, rpo, rord, pos, done) && (forall b: nat :: b < |g| ==> b in done)
    requires |first| == |g|
    requires forall b: nat :: b < |g| ==> (b in vis <==> Reachable(g, b))
    requires forall b: nat :: b < |g| ==> if b in vis then rpo[b] == first[b] >= top else rpo[b] < top
    requires forall b: nat :: 0 < b < |g| && b in vis ==> Lower(g, first, b)
    ensures Numbering(g, rpo, rord)
  {
    hide Reachable;
    Everything(done, |g|);
    forall b: nat | 0 < b < |g| && Reachable(g, b)
      ensures Lower(g, rpo, b)
    {
      assert Lower(g, first, b);
      var p: nat :| Pred(g, p, b) && Reachable(g, p) && b < |g| && first[p] < first[b];
      assert Pred(g, p, b) && Reachable(g, p) && rpo[p] < rpo[b];
    }
  }

  lemma {:induction false} Everything(done: set<nat>, n: nat)
    requires forall b: nat :: b < n ==> b in done
    ensures |done| >= n
  {
    if n > 0 {
      Everything(done - {n - 1}, n - 1);
    }
  }
}
