/** amdgpu_phi_elim: phis become copies at the end of the predecessors. */
module PhiElim {

  /** One incoming value of a phi: the predecessor block and the register. */
  datatype Arg = Arg(block: nat, src: nat)

  datatype Inst = Phi(dst: nat, args: seq<Arg>) | Copy(dst: nat, src: nat) | Nop | Term(id: nat) | Plain(id: nat)

  datatype Move = Move(block: nat, dst: nat, src: nat)

  // ---- What each block becomes ----

  function Nopped(s: seq<Inst>): (r: seq<Inst>)
    ensures |r| == |s|
  {
    seq(|s|, i requires 0 <= i < |s| => if s[i].Phi? then Nop else s[i])
  }

  function ArgMoves(dst: nat, args: seq<Arg>): (r: seq<Move>)
    ensures |r| == |args|
  {
    seq(|args|, i requires 0 <= i < |args| => Move(args[i].block, dst, args[i].src))
  }

  /** All moves that the phis of s ask for, in order. */
  function Moves(s: seq<Inst>): seq<Move> {
    if s == [] then []
    else
      var x := s[|s| - 1];
      Moves(s[..|s| - 1]) + if x.Phi? then ArgMoves(x.dst, x.args) else []
  }

  /** The moves at the end of block b. */
  function For(ms: seq<Move>, b: nat): seq<Move> {
    if ms == [] then []
    else For(ms[..|ms| - 1], b) + if ms[|ms| - 1].block == b then [ms[|ms| - 1]] else []
  }

  function Copies(ms: seq<Move>): (r: seq<Inst>)
    ensures |r| == |ms|
  {
    seq(|ms|, i requires 0 <= i < |ms| => Copy(ms[i].dst, ms[i].src))
  }

  /** Where the trailing terminators of a block start. */
  function TermStart(s: seq<Inst>): (k: nat)
    ensures k <= |s| && (forall i :: k <= i < |s| ==> s[i].Term?) && (k > 0 ==> !s[k - 1].Term?)
  {
    if s == [] || !s[|s| - 1].Term? then |s| else TermStart(s[..|s| - 1])
  }

  function WithCopies(s: seq<Inst>, ms: seq<Move>): seq<Inst> {
    s[..TermStart(s)] + Copies(ms) + s[TermStart(s)..]
  }

  function Flat(bs: seq<seq<Inst>>): seq<Inst> {
    if bs == [] then [] else Flat(bs[..|bs| - 1]) + bs[|bs| - 1]
  }

  /** The block after elimination. */
  function Lowered(bs: seq<seq<Inst>>, b: nat): seq<Inst>
    requires b < |bs|
  {
    WithCopies(Nopped(bs[b]), For(Moves(Flat(bs)), b))
  }

  // ---- Flat lists ----

  lemma {:induction false} FlatAppend(x: seq<seq<Inst>>, y: seq<seq<Inst>>)
    ensures Flat(x + y) == Flat(x) + Flat(y)
    decreases |y|
  {
    if y == [] {
      assert x + y == x;
    } else {
      var n := |y| - 1;
      assert (x + y)[..|x| + n] == x + y[..n];
      FlatAppend(x, y[..n]);
    }
  }

  lemma FlatAt(bs: seq<seq<Inst>>, b: nat)
    requires b < |bs|
    ensures Flat(bs) == Flat(bs[..b]) + bs[b] + Flat(bs[b + 1..])
    ensures Flat(bs[..b + 1]) == Flat(bs[..b]) + bs[b]
  {
    hide Flat;
    FlatPrefix(bs, b);
    FlatAppend(bs[..b + 1], bs[b + 1..]);
    assert bs[..b + 1] + bs[b + 1..] == bs;
  }

  lemma FlatPrefix(bs: seq<seq<Inst>>, b: nat)
    requires b < |bs|
    ensures Flat(bs[..b + 1]) == Flat(bs[..b]) + bs[b]
  {
    assert bs[..b + 1][..b] == bs[..b];
  }

  function AllNopped(bs: seq<seq<Inst>>): (r: seq<seq<Inst>>)
    ensures |r| == |bs|
  {
    seq(|bs|, i requires 0 <= i < |bs| => Nopped(bs[i]))
  }

  lemma {:induction false} NoppedFlat(bs: seq<seq<Inst>>)
    ensures Nopped(Flat(bs)) == Flat(AllNopped(bs))
  {
    if bs != [] {
      var n := |bs| - 1;
      NoppedFlat(bs[..n]);
      assert AllNopped(bs)[..n] == AllNopped(bs[..n]);
      assert Nopped(Flat(bs[..n]) + bs[n]) == Nopped(Flat(bs[..n])) + Nopped(bs[n]);
    } else {
      assert AllNopped(bs) == [];
    }
  }

  // ---- The pass ----

  /** The flat list holds the given blocks, one after the other. */
  ghost predicate Holds(insts: seq<Inst>, first: seq<nat>, num: seq<nat>, bs: seq<seq<Inst>>) {
    && insts == Flat(bs) && |first| == |num| == |bs|
    && forall b :: 0 <= b < |bs| ==> num[b] == |bs[b]| && first[b] == |Flat(bs[..b])|
  }

  class Module {
    var insts: seq<Inst>
    var first: seq<nat>
    var num: seq<nat>

    constructor (insts: seq<Inst>, first: seq<nat>, num: seq<nat>)
      ensures this.insts == insts && this.first == first && this.num == num
    {
      this.insts, this.first, this.num := insts, first, num;
    }

    /** Phase 1: collect the moves and make the phis no-operations. */
    method Collect() returns (ms: seq<Move>)
      modifies this`insts
      ensures ms == Moves(old(insts)) && insts == Nopped(old(insts))
    {
      ghost var was := insts;
      ms := [];
      for i := 0 to |insts|
        modifies this`insts
        invariant |insts| == |was| && ms == Moves(was[..i])
        invariant forall j :: 0 <= j < |was| ==> insts[j] == if j < i && was[j].Phi? then Nop else was[j]
      {
        assert was[..i + 1][..i] == was[..i];
        var x := insts[i];
        if x.Phi? {
          for p := 0 to |x.args|
            invariant ms == Moves(was[..i]) + ArgMoves(x.dst, x.args)[..p]
          {
            ms := ms + [Move(x.args[p].block, x.dst, x.args[p].src)];
          }
          insts := insts[i := Nop];
        }
      }
      assert was[..|was|] == was;
    }

    /** Where copies go in a block: before its trailing terminators. */
    method InsertionPoint(b: nat) returns (k: nat)
      requires b < |first| == |num| && first[b] + num[b] <= |insts|
      ensures k == TermStart(insts[first[b]..first[b] + num[b]])
    {
      ghost var s := insts[first[b]..first[b] + num[b]];
      k := num[b];
      assert s[..k] == s;
      while k > 0 && insts[first[b] + k - 1].Term?
        invariant k <= num[b] && TermStart(s[..k]) == TermStart(s)
      {
        assert s[..k][..k - 1] == s[..k - 1];
        k := k - 1;
      }
    }

    /** Phase 3 for one block: make room, put the copies in, move later blocks up. */
    method InsertIn(b: nat, ms: seq<Move>, ghost bs: seq<seq<Inst>>)
      requires b < |bs| && Holds(insts, first, num, bs)
      modifies this
      ensures Holds(insts, first, num, bs[b := WithCopies(bs[b], For(ms, b))])
    {
      hide TermStart, Holds, Flat, Shifted, WithCopies;
      HoldsSize(insts, first, num, bs);
      SliceAt(insts, first, num, bs, b);
      var here := For(ms, b);
      if |here| == 0 {
        NoCopies(bs[b]);
        assert bs[b := bs[b]] == bs;
        return;
      }
      var k := InsertionPoint(b);
      var at := first[b] + k;
      InsertHolds(insts, first, num, bs, b, here);
      insts := insts[..at] + Copies(here) + insts[at..];
      num := num[b := num[b] + |here|];
      ShiftLater(b, |here|);
    }

    method ShiftLater(b: nat, n: nat)
      requires b < |first|
      modifies this`first
      ensures first == Shifted(old(first), b, n)
    {
      var later := b + 1;
      ghost var was := first;
      while later < |first|
        modifies this`first
        invariant b < later <= |first| == |was|
        invariant forall c :: 0 <= c < |was| ==> first[c] == was[c] + if b < c < later then n else 0
      {
        first := first[later := first[later] + n];
        later := later + 1;
      }
    }

    /** The whole pass.  Every block keeps its instructions, phis made no-operations, and gets exactly
        its copies, just before its trailing terminators: it takes the values of the phis on the way
        out. */
    method Eliminate(ghost bs: seq<seq<Inst>>)
      requires Holds(insts, first, num, bs)
      modifies this
      ensures Holds(insts, first, num, AllLowered(bs))
      ensures forall b :: 0 <= b < |bs| ==>
                && first[b] + num[b] <= |insts|
                && TakesPhis(old(insts), b, bs[b], insts[first[b]..first[b] + num[b]])
    {
      hide Holds, Flat, Moves, For, WithCopies, TakesPhis;
      HoldsSize(insts, first, num, bs);
      ghost var was := insts;
      var ms := Collect();
      StartHolds(insts, first, num, bs);
      ghost var cur := AllNopped(bs);
      if |ms| == 0 {
        NothingToDo(bs);
        AllTake(was, bs, insts, first, num);
        return;
      }
      var mb := |first|;
      while mb > 0
        modifies this
        invariant mb <= |first| == |bs| == |cur| && Holds(insts, first, num, cur)
        invariant forall c :: 0 <= c < |bs| ==> cur[c] == if c < mb then Nopped(bs[c]) else Lowered(bs, c)
      {
        mb := mb - 1;
        InsertIn(mb, ms, cur);
        cur := cur[mb := WithCopies(cur[mb], For(ms, mb))];
        HoldsSize(insts, first, num, cur);
      }
      assert cur == AllLowered(bs);
      AllTake(was, bs, insts, first, num);
    }
  }

  lemma AllTake(was: seq<Inst>, bs: seq<seq<Inst>>, insts: seq<Inst>, first: seq<nat>, num: seq<nat>)
    requires was == Flat(bs) && Holds(insts, first, num, AllLowered(bs))
    ensures |first| == |num| == |bs|
    ensures forall b :: 0 <= b < |bs| ==>
              && first[b] + num[b] <= |insts|
              && TakesPhis(was, b, bs[b], insts[first[b]..first[b] + num[b]])
  {
    hide Holds, Flat, Moves, For, WithCopies, TakesPhis;
    HoldsSize(insts, first, num, AllLowered(bs));
    forall b | 0 <= b < |bs|
      ensures first[b] + num[b] <= |insts| && TakesPhis(was, b, bs[b], insts[first[b]..first[b] + num[b]])
    {
      SliceAt(insts, first, num, AllLowered(bs), b);
      LoweredTakes(was, b, bs[b]);
    }
  }

  function AllLowered(bs: seq<seq<Inst>>): (r: seq<seq<Inst>>)
    ensures |r| == |bs|
  {
    seq(|bs|, b requires 0 <= b < |bs| => Lowered(bs, b))
  }

  lemma HoldsSize(insts: seq<Inst>, first: seq<nat>, num: seq<nat>, bs: seq<seq<Inst>>)
    requires Holds(insts, first, num, bs)
    ensures |first| == |num| == |bs| && insts == Flat(bs)
  {
  }

  lemma StartHolds(insts: seq<Inst>, first: seq<nat>, num: seq<nat>, bs: seq<seq<Inst>>)
    requires Holds(Flat(bs), first, num, bs) && insts == Nopped(Flat(bs))
    ensures Holds(insts, first, num, AllNopped(bs))
  {
    hide Flat;
    NoppedFlat(bs);
    var ns := AllNopped(bs);
    forall b | 0 <= b < |bs|
      ensures first[b] == |Flat(ns[..b])|
    {
      assert ns[..b] == AllNopped(bs[..b]);
      NoppedFlat(bs[..b]);
    }
  }

  lemma NothingToDo(bs: seq<seq<Inst>>)
    requires Moves(Flat(bs)) == []
    ensures AllLowered(bs) == AllNopped(bs)
  {
    hide Flat, Moves, WithCopies;
    forall b | 0 <= b < |bs|
      ensures Lowered(bs, b) == Nopped(bs[b])
    {
      NoCopies(Nopped(bs[b]));
    }
  }

  function Shifted(first: seq<nat>, b: nat, n: nat): (r: seq<nat>)
    ensures |r| == |first|
  {
    seq(|first|, c requires 0 <= c < |first| => first[c] + if b < c then n else 0)
  }

  lemma SliceAt(insts: seq<Inst>, first: seq<nat>, num: seq<nat>, bs: seq<seq<Inst>>, b: nat)
    requires b < |bs| && Holds(insts, first, num, bs)
    ensures first[b] + num[b] <= |insts| && insts[first[b]..first[b] + num[b]] == bs[b]
    ensures insts[..first[b]] == Flat(bs[..b]) && insts[first[b] + num[b]..] == Flat(bs[b + 1..])
  {
    hide Flat;
    FlatAt(bs, b);
    var x, y, z := Flat(bs[..b]), bs[b], Flat(bs[b + 1..]);
    assert insts == x + y + z;
  }

  lemma NoCopies(s: seq<Inst>)
    ensures WithCopies(s, []) == s
  {
    hide TermStart;
    assert Copies([]) == [];
  }

  lemma InsertFlat(x: seq<Inst>, y: seq<Inst>, z: seq<Inst>, t: nat, ms: seq<Move>)
    requires t <= |y|
    ensures var insts := x + y + z; var k := |x| + t;
            insts[..k] + Copies(ms) + insts[k..] == x + (y[..t] + Copies(ms) + y[t..]) + z
  {
    var insts := x + y + z;
    assert insts[..|x| + t] == x + y[..t] && insts[|x| + t..] == y[t..] + z;
  }

  lemma InsertStarts(bs: seq<seq<Inst>>, first: seq<nat>, b: nat, y: seq<Inst>, n: nat)
    requires b < |bs| == |first| && |y| == |bs[b]| + n && forall c :: 0 <= c < |bs| ==> first[c] == |Flat(bs[..c])|
    ensures forall c :: 0 <= c < |bs| ==> Shifted(first, b, n)[c] == |Flat(bs[b := y][..c])|
  {
    hide Flat;
    forall c | 0 <= c < |bs|
      ensures Shifted(first, b, n)[c] == |Flat(bs[b := y][..c])|
    {
      if c <= b {
        assert bs[b := y][..c] == bs[..c];
      } else {
        LaterStart(bs, b, y, c);
      }
    }
  }

  lemma InsertHolds(insts: seq<Inst>, first: seq<nat>, num: seq<nat>, bs: seq<seq<Inst>>, b: nat, ms: seq<Move>)
    requires b < |bs| && Holds(insts, first, num, bs)
    ensures var k := first[b] + TermStart(bs[b]);
            && k <= |insts|
            && Holds(insts[..k] + Copies(ms) + insts[k..], Shifted(first, b, |ms|), num[b := num[b] + |ms|],
                     bs[b := WithCopies(bs[b], ms)])
  {
    hide TermStart, Flat, Shifted, Copies;
    SliceAt(insts, first, num, bs, b);
    var y := WithCopies(bs[b], ms);
    var cs := bs[b := y];
    FlatAt(bs, b);
    FlatAt(cs, b);
    assert cs[..b] == bs[..b] && cs[b + 1..] == bs[b + 1..];
    InsertFlat(Flat(bs[..b]), bs[b], Flat(bs[b + 1..]), TermStart(bs[b]), ms);
    InsertStarts(bs, first, b, y, |ms|);
  }

  /** A longer block b moves every later block up. */
  lemma LaterStart(bs: seq<seq<Inst>>, b: nat, y: seq<Inst>, c: nat)
    requires b < c <= |bs|
    ensures |Flat(bs[b := y][..c])| == |Flat(bs[..c])| - |bs[b]| + |y|
  {
    hide Flat;
    var p, q := bs[..c], bs[b := y][..c];
    FlatAt(p, b);
    FlatAt(q, b);
    assert p[..b] == q[..b] && p[b + 1..] == q[b + 1..];
  }

  // ---- What the copies compute ----

  type Regs = imap<nat, int>

  ghost predicate Total(r: Regs) {
    forall k: nat :: k in r
  }

  ghost function RunCopies(ms: seq<Move>, r: Regs): (s: Regs)
    requires Total(r)
    ensures Total(s)
  {
    if ms == [] then r
    else
      var s := RunCopies(ms[..|ms| - 1], r);
      s[ms[|ms| - 1].dst := s[ms[|ms| - 1].src]]
  }

  ghost predicate DistinctDests(ms: seq<Move>) {
    forall i, j :: 0 <= i < j < |ms| ==> ms[i].dst != ms[j].dst
  }

  /** A copy overwrites what a later copy reads. */
  ghost predicate Clobbers(ms: seq<Move>, i: nat, j: nat) {
    i < j < |ms| && ms[i].dst == ms[j].src && ms[i].dst != ms[i].src
  }

  /** Every destination has the value its source had at the start, and nothing else changed. */
  ghost predicate AllAtOnce(ms: seq<Move>, r: Regs, s: Regs)
    requires Total(r) && Total(s)
  {
    && (forall i :: 0 <= i < |ms| ==> s[ms[i].dst] == r[ms[i].src])
    && (forall k: nat :: (forall i :: 0 <= i < |ms| ==> ms[i].dst != k) ==> s[k] == r[k])
  }

  lemma {:induction false} CopiesAtOnce(ms: seq<Move>, r: Regs)
    requires Total(r) && DistinctDests(ms) && forall i: nat, j: nat :: !Clobbers(ms, i, j)
    ensures AllAtOnce(ms, r, RunCopies(ms, r))
  {
    if ms != [] {
      var n := |ms| - 1;
      var ps := ms[..n];
      forall i: nat, j: nat
        ensures !Clobbers(ps, i, j)
      {
        assert !Clobbers(ms, i, j);
      }
      CopiesAtOnce(ps, r);
      var s := RunCopies(ps, r);
      SourceStands(ms, n, r, s);
      forall k: nat | forall i :: 0 <= i < |ms| ==> ms[i].dst != k
        ensures RunCopies(ms, r)[k] == r[k]
      {
        assert forall i :: 0 <= i < n ==> ps[i].dst != k;
      }
    }
  }

  /** The source of the last copy still has its first value. */
  lemma SourceStands(ms: seq<Move>, n: nat, r: Regs, s: Regs)
    requires |ms| == n + 1 && Total(r) && Total(s) && AllAtOnce(ms[..n], r, s)
    requires forall i: nat :: !Clobbers(ms, i, n)
    ensures s[ms[n].src] == r[ms[n].src]
  {
    var ps := ms[..n];
    if i: nat :| i < n && ps[i].dst == ms[n].src {
      assert !Clobbers(ms, i, n);
    } else {
      assert forall i :: 0 <= i < n ==> ps[i].dst != ms[n].src;
    }
  }

  /** One copy after the other does what all at once would, from every state, exactly when no copy
      overwrites the source of a later one. */
  lemma SequentialIffNoClobber(ms: seq<Move>)
    requires DistinctDests(ms)
    ensures (forall r: Regs :: Total(r) ==> AllAtOnce(ms, r, RunCopies(ms, r))) <==>
              (forall i: nat, j: nat :: !Clobbers(ms, i, j))
  {
    hide RunCopies, AllAtOnce, DistinctDests, Marked;
    if forall i: nat, j: nat :: !Clobbers(ms, i, j) {
      forall r: Regs | Total(r)
        ensures AllAtOnce(ms, r, RunCopies(ms, r))
      {
        CopiesAtOnce(ms, r);
      }
    } else {
      var p: nat, q: nat :| Clobbers(ms, p, q);
      assert q < |ms|;
      var i, j := FirstClobber(ms, |ms|);
      var r := Marked(ms[i].dst);
      ClobberShows(ms, i, j, r);
      assert Total(r) && !AllAtOnce(ms, r, RunCopies(ms, r));
    }
  }

  /** A state in which only register k holds one. */
  ghost function Marked(k: nat): (r: Regs)
    ensures Total(r) && r[k] == 1 && forall x: nat :: x != k ==> r[x] == 0
  {
    imap x: nat :: Bit(x, k)
  }

  function Bit(x: nat, k: nat): int {
    if x == k then 1 else 0
  }

  lemma {:induction false} FirstClobber(ms: seq<Move>, n: nat) returns (i: nat, j: nat)
    requires n <= |ms| && exists i: nat, j: nat :: j < n && Clobbers(ms, i, j)
    ensures j < n && Clobbers(ms, i, j) && forall p: nat, q: nat :: q < j ==> !Clobbers(ms, p, q)
    decreases n
  {
    if exists p: nat, q: nat :: q < n - 1 && Clobbers(ms, p, q) {
      i, j := FirstClobber(ms, n - 1);
    } else {
      i, j :| j < n && Clobbers(ms, i, j);
    }
  }

  lemma ClobberShows(ms: seq<Move>, i: nat, j: nat, r: Regs)
    requires DistinctDests(ms) && Clobbers(ms, i, j) && (forall p: nat, q: nat :: q < j ==> !Clobbers(ms, p, q))
    requires Total(r) && r[ms[i].dst] == 1 && forall x: nat :: x != ms[i].dst ==> r[x] == 0
    ensures !AllAtOnce(ms, r, RunCopies(ms, r))
  {
    var ps := ms[..j];
    forall p: nat, q: nat
      ensures !Clobbers(ps, p, q)
    {
      assert q < j ==> !Clobbers(ms, p, q);
    }
    CopiesAtOnce(ps, r);
    assert ps[i] == ms[i];
    assert RunCopies(ps, r)[ms[j].src] == r[ms[i].src] == 0;
    var qs := ms[..j + 1];
    assert qs[..j] == ps;
    assert RunCopies(qs, r)[ms[j].dst] == 0;
    LaterKeeps(ms, r, j);
  }

  /** Later copies have other destinations. */
  lemma {:induction false} LaterKeeps(ms: seq<Move>, r: Regs, j: nat)
    requires DistinctDests(ms) && Total(r) && j < |ms|
    ensures RunCopies(ms, r)[ms[j].dst] == RunCopies(ms[..j + 1], r)[ms[j].dst]
    decreases |ms|
  {
    var n := |ms| - 1;
    if j < n {
      LaterKeeps(ms[..n], r, j);
      assert ms[..n][..j + 1] == ms[..j + 1];
    } else {
      assert ms[..j + 1] == ms;
    }
  }

  // ---- What the lowered blocks compute ----

  /** What the other instructions do, whatever that is. */
  type Meaning = (nat, Regs) -> Regs

  ghost predicate KeepsTotal(act: Meaning) {
    forall id, r :: Total(r) ==> Total(act(id, r))
  }

  /** A copy moves a value; phis and no-operations do nothing; terminators are not run here. */
  ghost function Step(act: Meaning, x: Inst, r: Regs): (t: Regs)
    requires KeepsTotal(act) && Total(r)
    ensures Total(t)
  {
    match x
    case Copy(dst, src) => r[dst := r[src]]
    case Plain(id) => act(id, r)
    case _ => r
  }

  ghost function Run(act: Meaning, s: seq<Inst>, r: Regs): (t: Regs)
    requires KeepsTotal(act) && Total(r)
    ensures Total(t)
  {
    if s == [] then r else Step(act, s[|s| - 1], Run(act, s[..|s| - 1], r))
  }

  /** The block up to its trailing terminators, and those. */
  function Body(s: seq<Inst>): seq<Inst> {
    s[..TermStart(s)]
  }

  function Ends(s: seq<Inst>): seq<Inst> {
    s[TermStart(s)..]
  }

  /** The a-th argument of the phi at n is the value that comes from block b. */
  ghost predicate Comes(s: seq<Inst>, b: nat, n: nat, a: nat) {
    n < |s| && s[n].Phi? && a < |s[n].args| && s[n].args[a].block == b
  }

  ghost predicate Earlier(n: nat, a: nat, n': nat, a': nat) {
    n < n' || (n == n' && a < a')
  }

  /** No register gets two values from block b. */
  ghost predicate OneValueEach(s: seq<Inst>, b: nat) {
    forall n: nat, a: nat, n': nat, a': nat ::
      Comes(s, b, n, a) && Comes(s, b, n', a') && Earlier(n, a, n', a') ==> s[n].dst != s[n'].dst
  }

  /** Some phi's register is the source of a later phi on the edge from block b. */
  ghost predicate Overwrites(s: seq<Inst>, b: nat) {
    exists n: nat, a: nat, n': nat, a': nat ::
      && Comes(s, b, n, a) && Comes(s, b, n', a') && Earlier(n, a, n', a')
      && s[n].dst == s[n'].args[a'].src && s[n].dst != s[n].args[a].src
  }

  /** From r to t every phi has taken its value from block b, and nothing else has changed. */
  ghost predicate PhisTaken(s: seq<Inst>, b: nat, r: Regs, t: Regs)
    requires Total(r) && Total(t)
  {
    && (forall n: nat, a: nat :: Comes(s, b, n, a) ==> t[s[n].dst] == r[s[n].args[a].src])
    && (forall k: nat :: !Target(s, b, k) ==> t[k] == r[k])
  }

  /** Block b of the list s, and what it has become: the same terminators and no phis.  It does what
      it did, and then, from every state, the phis of its successors take their values, exactly when
      no phi's register is overwritten before it is read. */
  ghost predicate TakesPhis(s: seq<Inst>, b: nat, was: seq<Inst>, now: seq<Inst>) {
    var k := |Body(was)|;
    && Ends(now) == Ends(was)
    && (forall x :: x in now ==> !x.Phi?)
    && k <= |Body(now)| && RunAlike(Body(was), Body(now)[..k])
    && (OneValueEach(s, b) ==> (AlwaysTaken(s, b, Body(now)[k..]) <==> !Overwrites(s, b)))
  }

  ghost predicate RunAlike(x: seq<Inst>, y: seq<Inst>) {
    forall act: Meaning, r: Regs :: KeepsTotal(act) && Total(r) ==> Run(act, y, r) == Run(act, x, r)
  }

  ghost predicate AlwaysTaken(s: seq<Inst>, b: nat, added: seq<Inst>) {
    forall act: Meaning, r: Regs :: KeepsTotal(act) && Total(r) ==> PhisTaken(s, b, r, Run(act, added, r))
  }

  lemma {:induction false} RunNopped(act: Meaning, s: seq<Inst>, r: Regs)
    requires KeepsTotal(act) && Total(r)
    ensures Run(act, Nopped(s), r) == Run(act, s, r)
  {
    if s != [] {
      var n := |s| - 1;
      RunNopped(act, s[..n], r);
      assert Nopped(s)[..n] == Nopped(s[..n]);
    }
  }

  lemma {:induction false} RunMoves(act: Meaning, ms: seq<Move>, r: Regs)
    requires KeepsTotal(act) && Total(r)
    ensures Run(act, Copies(ms), r) == RunCopies(ms, r)
  {
    if ms != [] {
      var n := |ms| - 1;
      RunMoves(act, ms[..n], r);
      assert Copies(ms)[..n] == Copies(ms[..n]);
    }
  }

  lemma TermStartUnique(s: seq<Inst>, k: nat)
    requires k <= |s| && (forall i :: k <= i < |s| ==> s[i].Term?) && (k > 0 ==> !s[k - 1].Term?)
    ensures TermStart(s) == k
  {
    hide TermStart;
    var t := TermStart(s);
    assert forall i :: t <= i < |s| ==> s[i].Term?;
    assert t > 0 ==> !s[t - 1].Term?;
  }

  /** The parts of a lowered block. */
  lemma LoweredParts(s: seq<Inst>, ms: seq<Move>)
    ensures Body(WithCopies(Nopped(s), ms)) == Nopped(Body(s)) + Copies(ms)
    ensures Ends(WithCopies(Nopped(s), ms)) == Ends(s)
    ensures forall x :: x in WithCopies(Nopped(s), ms) ==> !x.Phi?
  {
    hide TermStart;
    var k, n := TermStart(s), Nopped(s);
    TermStartUnique(n, k);
    var t := WithCopies(n, ms);
    assert t == n[..k] + Copies(ms) + n[k..];
    forall i | k + |ms| <= i < |t|
      ensures t[i].Term?
    {
      assert t[i] == n[i - |ms|];
    }
    TermStartUnique(t, k + |ms|);
    assert n[..k] == Nopped(s[..k]) && n[k..] == s[k..];
  }

  // ---- The moves of a block are the values that come from it, in order ----

  /** The a-th argument of the instruction at n. */
  datatype Place = Place(n: nat, a: nat)

  ghost predicate ListedAt(s: seq<Inst>, b: nat, p: Place, m: Move) {
    Comes(s, b, p.n, p.a) && m.dst == s[p.n].dst && m.src == s[p.n].args[p.a].src
  }

  ghost predicate Has(ps: seq<Place>, n: nat, a: nat) {
    Place(n, a) in ps
  }

  /** ps lists the values before place (n, a) that come from block b, in order, and ms moves them. */
  ghost predicate ListsTo(s: seq<Inst>, b: nat, n: nat, a: nat, ps: seq<Place>, ms: seq<Move>) {
    && |ps| == |ms|
    && (forall i :: 0 <= i < |ps| ==> ListedAt(s, b, ps[i], ms[i]) && Earlier(ps[i].n, ps[i].a, n, a))
    && (forall i, j :: 0 <= i < j < |ps| ==> Earlier(ps[i].n, ps[i].a, ps[j].n, ps[j].a))
    && (forall n': nat, a': nat :: Comes(s, b, n', a') && Earlier(n', a', n, a) ==> Has(ps, n', a'))
  }

  ghost predicate Lists(s: seq<Inst>, b: nat, ps: seq<Place>, ms: seq<Move>) {
    ListsTo(s, b, |s|, 0, ps, ms)
  }

  /** One more argument. */
  lemma ListOne(s: seq<Inst>, b: nat, n: nat, a: nat, ps: seq<Place>, ms: seq<Move>, m: Move)
    requires ListsTo(s, b, n, a, ps, ms) && ListedAt(s, b, Place(n, a), m)
    ensures ListsTo(s, b, n, a + 1, ps + [Place(n, a)], ms + [m])
  {
    var qs := ps + [Place(n, a)];
    forall n': nat, a': nat | Comes(s, b, n', a') && Earlier(n', a', n, a + 1)
      ensures Has(qs, n', a')
    {
      if !(n' == n && a' == a) {
        assert Has(ps, n', a');
      } else {
        assert qs[|ps|] == Place(n, a);
      }
    }
  }

  /** A place from which nothing comes. */
  lemma ListSkip(s: seq<Inst>, b: nat, n: nat, a: nat, n': nat, a': nat, ps: seq<Place>, ms: seq<Move>)
    requires ListsTo(s, b, n, a, ps, ms) && Earlier(n, a, n', a')
    requires forall m: nat, c: nat :: Comes(s, b, m, c) && Earlier(m, c, n', a') ==> Earlier(m, c, n, a)
    ensures ListsTo(s, b, n', a', ps, ms)
  {
  }

  /** The moves of all phis before place (n, a). */
  function MovesTill(s: seq<Inst>, n: nat, a: nat): seq<Move>
    requires n <= |s| && (a == 0 || (n < |s| && s[n].Phi? && a <= |s[n].args|))
  {
    if a == 0 then Moves(s[..n])
    else MovesTill(s, n, a - 1) + [Move(s[n].args[a - 1].block, s[n].dst, s[n].args[a - 1].src)]
  }

  lemma {:induction false} TillArgs(s: seq<Inst>, n: nat, a: nat)
    requires n < |s| && s[n].Phi? && a <= |s[n].args|
    ensures MovesTill(s, n, a) == Moves(s[..n]) + ArgMoves(s[n].dst, s[n].args)[..a]
  {
    if a > 0 {
      TillArgs(s, n, a - 1);
    }
  }

  lemma TillNext(s: seq<Inst>, n: nat)
    requires 0 < n <= |s|
    ensures MovesTill(s, n, 0) == MovesTill(s, n - 1, if s[n - 1].Phi? then |s[n - 1].args| else 0)
  {
    var x := s[n - 1];
    assert s[..n][..n - 1] == s[..n - 1];
    if x.Phi? {
      TillArgs(s, n - 1, |x.args|);
      var args := ArgMoves(x.dst, x.args);
      assert args[..|x.args|] == args;
    }
  }

  lemma {:induction false} MovesListed(s: seq<Inst>, b: nat, n: nat, a: nat) returns (ps: seq<Place>)
    requires n <= |s| && (a == 0 || (n < |s| && s[n].Phi? && a <= |s[n].args|))
    ensures ListsTo(s, b, n, a, ps, For(MovesTill(s, n, a), b))
    decreases n, a
  {
    hide ListsTo, Moves, For;
    if a > 0 {
      ps := MovesListed(s, b, n, a - 1);
      var ms, x := MovesTill(s, n, a - 1), s[n].args[a - 1];
      var m := Move(x.block, s[n].dst, x.src);
      ForMore(ms, m, b);
      if x.block == b {
        ListOne(s, b, n, a - 1, ps, For(ms, b), m);
        ps := ps + [Place(n, a - 1)];
      } else {
        ListSkip(s, b, n, a - 1, n, a, ps, For(ms, b));
      }
    } else if n > 0 {
      var k := if s[n - 1].Phi? then |s[n - 1].args| else 0;
      ps := MovesListed(s, b, n - 1, k);
      TillNext(s, n);
      ListSkip(s, b, n - 1, k, n, 0, ps, For(MovesTill(s, n, 0), b));
    } else {
      ps := [];
      NothingListed(s, b);
    }
  }

  lemma NothingListed(s: seq<Inst>, b: nat)
    ensures ListsTo(s, b, 0, 0, [], For(MovesTill(s, 0, 0), b))
  {
  }

  lemma ForMore(ms: seq<Move>, m: Move, b: nat)
    ensures For(ms + [m], b) == if m.block == b then For(ms, b) + [m] else For(ms, b)
  {
    assert (ms + [m])[..|ms|] == ms;
  }

  // ---- The list against the phis ----

  lemma ListDistinct(s: seq<Inst>, b: nat, ps: seq<Place>, ms: seq<Move>)
    requires Lists(s, b, ps, ms) && OneValueEach(s, b)
    ensures DistinctDests(ms)
  {
    forall i, j | 0 <= i < j < |ms|
      ensures ms[i].dst != ms[j].dst
    {
      assert ListedAt(s, b, ps[i], ms[i]) && ListedAt(s, b, ps[j], ms[j]);
    }
  }

  lemma ListClobbers(s: seq<Inst>, b: nat, ps: seq<Place>, ms: seq<Move>)
    requires Lists(s, b, ps, ms)
    ensures Overwrites(s, b) <==> exists i: nat, j: nat :: Clobbers(ms, i, j)
  {
    if i: nat, j: nat :| Clobbers(ms, i, j) {
      assert ListedAt(s, b, ps[i], ms[i]) && ListedAt(s, b, ps[j], ms[j]);
      assert Earlier(ps[i].n, ps[i].a, ps[j].n, ps[j].a);
    }
    if Overwrites(s, b) {
      var n: nat, a: nat, n': nat, a': nat :|
        && Comes(s, b, n, a) && Comes(s, b, n', a') && Earlier(n, a, n', a')
        && s[n].dst == s[n'].args[a'].src && s[n].dst != s[n].args[a].src;
      assert Has(ps, n, a) && Has(ps, n', a');
      var i: nat :| i < |ps| && ps[i] == Place(n, a);
      var j: nat :| j < |ps| && ps[j] == Place(n', a');
      assert ListedAt(s, b, ps[i], ms[i]) && ListedAt(s, b, ps[j], ms[j]);
      assert i < j;
      assert Clobbers(ms, i, j);
    }
  }

  ghost predicate Target(s: seq<Inst>, b: nat, k: nat) {
    exists n: nat, a: nat :: Comes(s, b, n, a) && s[n].dst == k
  }

  ghost predicate Moved(ms: seq<Move>, k: nat) {
    exists i :: 0 <= i < |ms| && ms[i].dst == k
  }

  lemma ListTargets(s: seq<Inst>, b: nat, ps: seq<Place>, ms: seq<Move>)
    requires Lists(s, b, ps, ms)
    ensures forall k: nat :: Target(s, b, k) <==> Moved(ms, k)
  {
    forall k: nat
      ensures Target(s, b, k) <==> Moved(ms, k)
    {
      if i :| 0 <= i < |ms| && ms[i].dst == k {
        assert ListedAt(s, b, ps[i], ms[i]);
      }
      if n: nat, a: nat :| Comes(s, b, n, a) && s[n].dst == k {
        assert Has(ps, n, a);
        var i :| 0 <= i < |ps| && ps[i] == Place(n, a);
        assert ListedAt(s, b, ps[i], ms[i]);
      }
    }
  }

  lemma ListTaken(s: seq<Inst>, b: nat, ps: seq<Place>, ms: seq<Move>, r: Regs, t: Regs)
    requires Lists(s, b, ps, ms) && Total(r) && Total(t)
    ensures PhisTaken(s, b, r, t) <==> AllAtOnce(ms, r, t)
  {
    ListTargets(s, b, ps, ms);
    if AllAtOnce(ms, r, t) {
      forall n: nat, a: nat | Comes(s, b, n, a)
        ensures t[s[n].dst] == r[s[n].args[a].src]
      {
        assert Has(ps, n, a);
        var i :| 0 <= i < |ps| && ps[i] == Place(n, a);
        assert ListedAt(s, b, ps[i], ms[i]);
      }
      forall k: nat | !Target(s, b, k)
        ensures t[k] == r[k]
      {
        assert !Moved(ms, k);
      }
    }
    if PhisTaken(s, b, r, t) {
      forall i | 0 <= i < |ms|
        ensures t[ms[i].dst] == r[ms[i].src]
      {
        assert ListedAt(s, b, ps[i], ms[i]);
      }
      forall k: nat | forall i :: 0 <= i < |ms| ==> ms[i].dst != k
        ensures t[k] == r[k]
      {
        assert !Moved(ms, k);
      }
    }
  }

  /** The lowered block takes the phis' values. */
  lemma LoweredTakes(s: seq<Inst>, b: nat, was: seq<Inst>)
    ensures TakesPhis(s, b, was, WithCopies(Nopped(was), For(Moves(s), b)))
  {
    hide *;
    var ms := For(Moves(s), b);
    var now := WithCopies(Nopped(was), ms);
    LoweredParts(was, ms);
    SplitBody(was, now, ms);
    NoppedAlike(Body(was));
    if OneValueEach(s, b) {
      var ps := MovesListed(s, b, |s|, 0);
      AllListed(s, b, ps);
      ListDistinct(s, b, ps, ms);
      ListClobbers(s, b, ps, ms);
      SequentialIffNoClobber(ms);
      AlwaysIff(s, b, ps, ms);
    }
    TakesParts(s, b, was, now);
  }

  lemma SplitBody(was: seq<Inst>, now: seq<Inst>, ms: seq<Move>)
    requires Body(now) == Nopped(Body(was)) + Copies(ms)
    ensures |Body(was)| <= |Body(now)|
    ensures Body(now)[..|Body(was)|] == Nopped(Body(was)) && Body(now)[|Body(was)|..] == Copies(ms)
  {
  }

  lemma NoppedAlike(s: seq<Inst>)
    ensures RunAlike(s, Nopped(s))
  {
    forall act: Meaning, r: Regs | KeepsTotal(act) && Total(r)
      ensures Run(act, Nopped(s), r) == Run(act, s, r)
    {
      RunNopped(act, s, r);
    }
  }

  lemma AllListed(s: seq<Inst>, b: nat, ps: seq<Place>)
    requires ListsTo(s, b, |s|, 0, ps, For(MovesTill(s, |s|, 0), b))
    ensures Lists(s, b, ps, For(Moves(s), b))
  {
    assert s[..|s|] == s;
  }

  lemma TakesParts(s: seq<Inst>, b: nat, was: seq<Inst>, now: seq<Inst>)
    requires Ends(now) == Ends(was) && (forall x :: x in now ==> !x.Phi?)
    requires |Body(was)| <= |Body(now)| && RunAlike(Body(was), Body(now)[..|Body(was)|])
    requires OneValueEach(s, b) ==> (AlwaysTaken(s, b, Body(now)[|Body(was)|..]) <==> !Overwrites(s, b))
    ensures TakesPhis(s, b, was, now)
  {
  }

  lemma AlwaysIff(s: seq<Inst>, b: nat, ps: seq<Place>, ms: seq<Move>)
    requires Lists(s, b, ps, ms)
    ensures AlwaysTaken(s, b, Copies(ms)) <==> forall r: Regs :: Total(r) ==> AllAtOnce(ms, r, RunCopies(ms, r))
  {
    hide Lists, PhisTaken, AllAtOnce, RunCopies, Run, Copies;
    forall act: Meaning, r: Regs | KeepsTotal(act) && Total(r)
      ensures PhisTaken(s, b, r, Run(act, Copies(ms), r)) <==> AllAtOnce(ms, r, RunCopies(ms, r))
    {
      RunMoves(act, ms, r);
      ListTaken(s, b, ps, ms, r, RunCopies(ms, r));
    }
    var act: Meaning := (id, r) => r;
    assert KeepsTotal(act);
  }
}
