/** Backward liveness: block summaries, the iteration to a fixpoint, and the paths it stands
    for. */
module Liveness {
  import FiniteSets
  import opened MachineIR

  const MAX_PASSES: nat := 200

  type Sets = seq<set<nat>>

  // ---- Block summaries ----

  function Elements(s: seq<nat>): set<nat> {
    set v | v in s
  }

  /** Registers live before an instruction, given those live after it. */
  function Before(i: Inst<nat>, after: set<nat>): set<nat> {
    after - Elements(i.defs) + Elements(i.uses)
  }

  /** Registers live before block[n..], given those live at its end. */
  function LiveFrom(block: Block<nat>, n: nat, out: set<nat>): set<nat>
    requires n <= |block|
    decreases |block| - n
  {
    if n == |block| then out else Before(block[n], LiveFrom(block, n + 1, out))
  }

  /** Defined in block[..n], and read there before being defined. */
  function DefUse(block: Block<nat>, n: nat): (set<nat>, set<nat>)
    requires n <= |block|
  {
    if n == 0 then ({}, {})
    else
      var (def, use) := DefUse(block, n - 1);
      (def + Elements(block[n - 1].defs), use + (Elements(block[n - 1].uses) - def))
  }

  /** The two summaries of a block describe its instruction-by-instruction transfer. */
  lemma {:induction false} SummaryIsTransfer(block: Block<nat>, n: nat, out: set<nat>)
    requires n <= |block|
    ensures var (def, use) := DefUse(block, n);
            LiveFrom(block, 0, out) == use + (LiveFrom(block, n, out) - def)
  {
    if n == 0 {
    } else {
      SummaryIsTransfer(block, n - 1, out);
      var (def, use) := DefUse(block, n - 1);
      var i, after := block[n - 1], LiveFrom(block, n, out);
      assert LiveFrom(block, n - 1, out) == Before(i, after);
      assert use + (Before(i, after) - def)
          == use + (Elements(i.uses) - def) + (after - (def + Elements(i.defs)));
    }
  }

  method Summarise(block: Block<nat>) returns (def: set<nat>, use: set<nat>)
    ensures (def, use) == DefUse(block, |block|)
  {
    def, use := {}, {};
    for ii := 0 to |block|
      invariant (def, use) == DefUse(block, ii)
    {
      var i := block[ii];
      var seen := use;
      for u := 0 to |i.uses|
        invariant seen == use + (Elements(i.uses[..u]) - def)
      {
        assert i.uses[..u + 1] == i.uses[..u] + [i.uses[u]];
        if i.uses[u] !in def {
          seen := seen + {i.uses[u]};
        }
      }
      assert i.uses[..|i.uses|] == i.uses;
      use := seen;
      var before := def;
      for d := 0 to |i.defs|
        invariant def == before + Elements(i.defs[..d])
      {
        assert i.defs[..d + 1] == i.defs[..d] + [i.defs[d]];
        def := def + {i.defs[d]};
      }
      assert i.defs[..|i.defs|] == i.defs;
    }
  }

  // ---- The equations and the paths ----

  /** A flow graph with block summaries. */
  datatype Flow = Flow(succs: seq<seq<nat>>, def: Sets, use: Sets) {
    ghost predicate Valid() {
      && |succs| == |def| == |use|
      && (forall b, i :: 0 <= b < |succs| && 0 <= i < |succs[b]| ==> succs[b][i] < |succs|)
    }

    function Size(): nat {
      |succs|
    }
  }

  function TransferIn(f: Flow, b: nat, out: set<nat>): set<nat>
    requires f.Valid() && b < f.Size()
  {
    f.use[b] + (out - f.def[b])
  }

  /** live_in and live_out satisfy the backward dataflow equations. */
  ghost predicate Solution(f: Flow, ins: Sets, outs: Sets)
    requires f.Valid()
  {
    && |ins| == |outs| == f.Size()
    && (forall b :: 0 <= b < f.Size() ==> ins[b] == TransferIn(f, b, outs[b]))
    && (forall b, v :: 0 <= b < f.Size() ==> (v in outs[b] <==> InSome(f, ins, b, v)))
  }

  /** v is live into some successor of b. */
  ghost predicate InSome(f: Flow, ins: Sets, b: nat, v: nat)
    requires f.Valid() && b < f.Size() == |ins|
  {
    exists s :: s in f.succs[b] && s < |ins| && v in ins[s]
  }

  /** Some path of at most k edges from the start of b reaches a read of v with no definition of
      v on the way. */
  ghost predicate Reads(f: Flow, b: nat, v: nat, k: nat)
    requires f.Valid() && b < f.Size()
    decreases k
  {
    || v in f.use[b]
    || (k > 0 && v !in f.def[b] && exists s :: s in f.succs[b] && s < f.Size() && Reads(f, s, v, k - 1))
  }

  ghost predicate Live(f: Flow, b: nat, v: nat)
    requires f.Valid() && b < f.Size()
  {
    exists k: nat :: Reads(f, b, v, k)
  }

  lemma {:induction false} ReadsMonotone(f: Flow, b: nat, v: nat, k: nat, k': nat)
    requires f.Valid() && b < f.Size() && k <= k' && Reads(f, b, v, k)
    ensures Reads(f, b, v, k')
    decreases k
  {
    if v !in f.use[b] {
      var s :| s in f.succs[b] && s < f.Size() && Reads(f, s, v, k - 1);
      ReadsMonotone(f, s, v, k - 1, k' - 1);
    }
  }

  /** Every solution contains every path. */
  lemma {:induction false} SolutionContainsPaths(f: Flow, ins: Sets, outs: Sets, b: nat, v: nat, k: nat)
    requires f.Valid() && Solution(f, ins, outs) && b < f.Size() && Reads(f, b, v, k)
    ensures v in ins[b]
    decreases k
  {
    if v !in f.use[b] {
      var s :| s in f.succs[b] && s < f.Size() && Reads(f, s, v, k - 1);
      SolutionContainsPaths(f, ins, outs, s, v, k - 1);
      assert InSome(f, ins, b, v);
    }
  }

  // ---- Paths never need more edges than there are blocks ----

  ghost function ReadSet(f: Flow, v: nat, k: nat): set<nat>
    requires f.Valid()
  {
    set b | 0 <= b < f.Size() && Reads(f, b, v, k)
  }

  lemma ReadSetGrows(f: Flow, v: nat, k: nat, k': nat)
    requires f.Valid() && k <= k'
    ensures ReadSet(f, v, k) <= ReadSet(f, v, k')
  {
    forall b | b in ReadSet(f, v, k)
      ensures b in ReadSet(f, v, k')
    {
      ReadsMonotone(f, b, v, k, k');
    }
  }

  lemma {:induction false} ReadSetStable(f: Flow, v: nat, k: nat, n: nat)
    requires f.Valid() && ReadSet(f, v, k) == ReadSet(f, v, k + 1)
    ensures ReadSet(f, v, k + n) == ReadSet(f, v, k)
  {
    if n > 0 {
      ReadSetStable(f, v, k, n - 1);
      ReadSetGrows(f, v, k, k + n);
      forall b | b in ReadSet(f, v, k + n)
        ensures b in ReadSet(f, v, k)
      {
        if v !in f.use[b] {
          var s :| s in f.succs[b] && s < f.Size() && Reads(f, s, v, k + n - 1);
          assert s in ReadSet(f, v, k + n - 1);
          assert s in ReadSet(f, v, k);
          assert Reads(f, b, v, k + 1);
          assert b in ReadSet(f, v, k + 1);
        }
      }
    }
  }

  /** Until the read set stops growing it has at least one new block per edge allowed. */
  lemma {:induction false} ReadSetChain(f: Flow, v: nat, k: nat)
    requires f.Valid() && ReadSet(f, v, 0) != {}
    ensures |ReadSet(f, v, k)| > k || exists j :: 0 <= j < k && ReadSet(f, v, j) == ReadSet(f, v, j + 1)
  {
    if k > 0 {
      ReadSetChain(f, v, k - 1);
      ReadSetGrows(f, v, k - 1, k);
      var a, b := ReadSet(f, v, k - 1), ReadSet(f, v, k);
      if a != b {
        assert b == a + (b - a);
        assert |b - a| > 0;
      }
    }
  }

  lemma ReadSetStops(f: Flow, v: nat) returns (j: nat)
    requires f.Valid() && f.Size() > 0
    ensures j < f.Size() && ReadSet(f, v, j) == ReadSet(f, v, j + 1)
  {
    var n := f.Size();
    if ReadSet(f, v, 0) == {} {
      forall b | 0 <= b < n
        ensures !Reads(f, b, v, 1)
      {
        assert b !in ReadSet(f, v, 0);
        assert forall s :: s in f.succs[b] && s < n ==> s !in ReadSet(f, v, 0);
      }
      assert ReadSet(f, v, 1) == {};
      return 0;
    }
    FiniteSets.BelowSize(ReadSet(f, v, n), n);
    ReadSetChain(f, v, n);
    j :| 0 <= j < n && ReadSet(f, v, j) == ReadSet(f, v, j + 1);
  }

  /** A live register is read along a path that visits no block twice. */
  lemma ShortPathsSuffice(f: Flow, b: nat, v: nat)
    requires f.Valid() && b < f.Size() && Live(f, b, v)
    ensures Reads(f, b, v, f.Size() - 1)
  {
    var k: nat :| Reads(f, b, v, k);
    var j := ReadSetStops(f, v);
    var m := if k < j then j else k;
    ReadsMonotone(f, b, v, k, m);
    ReadSetStable(f, v, j, m - j);
    assert b in ReadSet(f, v, m);
    assert b in ReadSet(f, v, j);
    ReadsMonotone(f, b, v, j, f.Size() - 1);
  }

  // ---- One pass of the iteration ----

  datatype Sol = Sol(ins: Sets, outs: Sets)

  ghost predicate Sized(f: Flow, x: Sol) {
    f.Valid() && |x.ins| == |x.outs| == f.Size()
  }

  /** The union of the live-in sets of the first n successors of b. */
  function UnionIns(f: Flow, ins: Sets, b: nat, n: nat): set<nat>
    requires f.Valid() && b < f.Size() == |ins| && n <= |f.succs[b]|
  {
    if n == 0 then {} else UnionIns(f, ins, b, n - 1) + ins[f.succs[b][n - 1]]
  }

  /** What the pass does at block b. */
  function Update(f: Flow, x: Sol, b: nat): (y: Sol)
    requires Sized(f, x) && b < f.Size()
    ensures Sized(f, y)
  {
    var out := x.outs[b] + UnionIns(f, x.ins, b, |f.succs[b]|);
    Sol(x.ins[b := TransferIn(f, b, out)], x.outs[b := out])
  }

  /** Blocks n-1 down to 0. */
  function Pass(f: Flow, x: Sol, n: nat): (y: Sol)
    requires Sized(f, x) && n <= f.Size()
    ensures Sized(f, y)
    decreases n
  {
    if n == 0 then x else Pass(f, Update(f, x, n - 1), n - 1)
  }

  ghost predicate Grown(x: Sol, y: Sol) {
    && |x.ins| == |x.outs| == |y.ins| == |y.outs|
    && (forall b :: 0 <= b < |x.ins| ==> x.ins[b] <= y.ins[b] && x.outs[b] <= y.outs[b])
  }

  /** What holds between passes: only live registers are listed, a live-out register is live into
      a successor, and a live-in set never exceeds what the block makes of its live-out set. */
  ghost predicate Partial(f: Flow, x: Sol) {
    && Sized(f, x)
    && (forall b, v :: 0 <= b < f.Size() && v in x.ins[b] ==> Live(f, b, v))
    && (forall b, v :: 0 <= b < f.Size() && v in x.outs[b] ==> InSome(f, x.ins, b, v))
    && (forall b :: 0 <= b < f.Size() ==> x.ins[b] <= TransferIn(f, b, x.outs[b]))
  }

  lemma {:induction false} UnionMember(f: Flow, ins: Sets, b: nat, n: nat, v: nat)
    requires f.Valid() && b < f.Size() == |ins| && n <= |f.succs[b]|
    ensures v in UnionIns(f, ins, b, n) <==> exists i :: 0 <= i < n && v in ins[f.succs[b][i]]
  {
    if n > 0 {
      UnionMember(f, ins, b, n - 1, v);
    }
  }

  lemma UnionIsInSome(f: Flow, ins: Sets, b: nat, v: nat)
    requires f.Valid() && b < f.Size() == |ins|
    ensures v in UnionIns(f, ins, b, |f.succs[b]|) <==> InSome(f, ins, b, v)
  {
    UnionMember(f, ins, b, |f.succs[b]|, v);
    if InSome(f, ins, b, v) {
      var s :| s in f.succs[b] && s < |ins| && v in ins[s];
      var i :| 0 <= i < |f.succs[b]| && f.succs[b][i] == s;
    }
  }

  lemma LiveThrough(f: Flow, b: nat, v: nat, s: nat)
    requires f.Valid() && b < f.Size() && s in f.succs[b] && s < f.Size()
    requires Live(f, s, v) && v !in f.def[b]
    ensures Live(f, b, v)
  {
    var k: nat :| Reads(f, s, v, k);
    assert Reads(f, b, v, k + 1);
  }

  lemma UpdateGrows(f: Flow, x: Sol, b: nat)
    requires Partial(f, x) && b < f.Size()
    ensures Grown(x, Update(f, x, b))
  {
  }

  lemma UpdatePartial(f: Flow, x: Sol, b: nat)
    requires Partial(f, x) && b < f.Size()
    ensures Partial(f, Update(f, x, b))
  {
    UpdateGrows(f, x, b);
    var y := Update(f, x, b);
    forall c, v | 0 <= c < f.Size() && v in y.outs[c]
      ensures InSome(f, x.ins, c, v) && InSome(f, y.ins, c, v)
    {
      UnionIsInSome(f, x.ins, c, v);
      assert InSome(f, x.ins, c, v);
      var s :| s in f.succs[c] && s < |x.ins| && v in x.ins[s];
      assert v in y.ins[s];
    }
    forall v | v in y.ins[b]
      ensures Live(f, b, v)
    {
      if v in f.use[b] {
        assert Reads(f, b, v, 0);
      } else {
        assert InSome(f, x.ins, b, v);
        var s :| s in f.succs[b] && s < |x.ins| && v in x.ins[s];
        LiveThrough(f, b, v, s);
      }
    }
  }

  lemma {:induction false} PassKeeps(f: Flow, x: Sol, n: nat)
    requires Partial(f, x) && n <= f.Size()
    ensures Partial(f, Pass(f, x, n)) && Grown(x, Pass(f, x, n))
    decreases n
  {
    assert Sized(f, x);
    hide Partial, Update, Grown;
    if n == 0 {
      GrownReflexive(x);
    } else {
      var y := Update(f, x, n - 1);
      UpdateGrows(f, x, n - 1);
      UpdatePartial(f, x, n - 1);
      PassKeeps(f, y, n - 1);
      GrownTransitive(x, y, Pass(f, y, n - 1));
    }
  }

  lemma GrownReflexive(x: Sol)
    requires |x.ins| == |x.outs|
    ensures Grown(x, x)
  {
  }

  lemma GrownTransitive(x: Sol, y: Sol, z: Sol)
    requires Grown(x, y) && Grown(y, z)
    ensures Grown(x, z)
  {
  }

  // ---- Progress: each pass sees one retreating edge further ----

  /** From the start of b, v is read along a path with fewer than k retreating edges, which are
      those to a block of the same or a lower number. */
  ghost predicate Seen(f: Flow, b: nat, v: nat, k: nat)
    requires f.Valid() && b < f.Size()
    decreases k, f.Size() - b, 1
  {
    k > 0 && (v in f.use[b] || (v !in f.def[b] && SeenOut(f, b, v, k)))
  }

  /** The same from the end of b. */
  ghost predicate SeenOut(f: Flow, b: nat, v: nat, k: nat)
    requires f.Valid() && b < f.Size()
    decreases k, f.Size() - b, 0
  {
    exists s :: s in f.succs[b] && s < f.Size() && if s > b then Seen(f, s, v, k) else k > 0 && Seen(f, s, v, k - 1)
  }

  lemma {:induction false} SeenMore(f: Flow, b: nat, v: nat, k: nat)
    requires f.Valid() && b < f.Size()
    ensures Seen(f, b, v, k) ==> Seen(f, b, v, k + 1)
    ensures SeenOut(f, b, v, k) ==> SeenOut(f, b, v, k + 1)
    decreases k, f.Size() - b
  {
    if SeenOut(f, b, v, k) {
      var s :| s in f.succs[b] && s < f.Size() && if s > b then Seen(f, s, v, k) else k > 0 && Seen(f, s, v, k - 1);
      SeenMore(f, s, v, if s > b then k else k - 1);
    }
  }

  lemma {:induction false} SeenUpTo(f: Flow, b: nat, v: nat, k: nat, k': nat)
    requires f.Valid() && b < f.Size() && k <= k' && SeenOut(f, b, v, k)
    ensures SeenOut(f, b, v, k')
    decreases k'
  {
    if k < k' {
      SeenUpTo(f, b, v, k, k' - 1);
      SeenMore(f, b, v, k' - 1);
    }
  }

  /** A path of k edges has at most k retreating ones. */
  lemma {:induction false} ReadsAreSeen(f: Flow, b: nat, v: nat, k: nat)
    requires f.Valid() && b < f.Size() && Reads(f, b, v, k)
    ensures Seen(f, b, v, k + 1)
    decreases k
  {
    if v !in f.use[b] {
      var s :| s in f.succs[b] && s < f.Size() && Reads(f, s, v, k - 1);
      ReadsAreSeen(f, s, v, k - 1);
      SeenMore(f, s, v, k);
      assert SeenOut(f, b, v, k + 1);
    }
  }

  /** In the middle of a pass: blocks n and above have seen k + 1 passes, those below only k. */
  ghost predicate Midway(f: Flow, x: Sol, k: nat, n: nat) {
    && Sized(f, x)
    && (forall b, v :: 0 <= b < f.Size() ==> (v in x.ins[b] <==> Seen(f, b, v, if b < n then k else k + 1)))
    && (forall b, v :: 0 <= b < f.Size() ==> (v in x.outs[b] <==> SeenOut(f, b, v, if b < n then k else k + 1)))
  }

  /** After k passes: what is read with fewer than k retreating edges. */
  ghost predicate After(f: Flow, x: Sol, k: nat) {
    Midway(f, x, k, f.Size())
  }

  lemma UpdateOut(f: Flow, x: Sol, k: nat, n: nat, v: nat)
    requires n < f.Size() && Midway(f, x, k, n + 1)
    ensures v in Update(f, x, n).outs[n] <==> SeenOut(f, n, v, k + 1)
  {
    UnionIsInSome(f, x.ins, n, v);
    SeenMore(f, n, v, k);
    if InSome(f, x.ins, n, v) {
      var s :| s in f.succs[n] && s < f.Size() && v in x.ins[s];
      assert Seen(f, s, v, if s > n then k + 1 else k);
    }
    if SeenOut(f, n, v, k + 1) {
      var s :| s in f.succs[n] && s < f.Size() && if s > n then Seen(f, s, v, k + 1) else Seen(f, s, v, k);
      assert v in x.ins[s];
    }
  }

  lemma UpdateMidway(f: Flow, x: Sol, k: nat, n: nat)
    requires n < f.Size() && Midway(f, x, k, n + 1)
    ensures Midway(f, Update(f, x, n), k, n)
  {
    var y := Update(f, x, n);
    forall v
      ensures v in y.outs[n] <==> SeenOut(f, n, v, k + 1)
      ensures v in y.ins[n] <==> Seen(f, n, v, k + 1)
    {
      UpdateOut(f, x, k, n, v);
    }
  }

  lemma {:induction false} PassMidway(f: Flow, x: Sol, k: nat, n: nat)
    requires n <= f.Size() && Midway(f, x, k, n)
    ensures Midway(f, Pass(f, x, n), k, 0)
    decreases n
  {
    assert Sized(f, x);
    hide Midway, Update;
    if n > 0 {
      UpdateMidway(f, x, k, n - 1);
      PassMidway(f, Update(f, x, n - 1), k, n - 1);
    }
  }

  /** One pass more sees one retreating edge more, and nothing else. */
  lemma PassAfter(f: Flow, x: Sol, k: nat)
    requires After(f, x, k)
    ensures After(f, Pass(f, x, f.Size()), k + 1)
  {
    PassMidway(f, x, k, f.Size());
  }

  lemma EmptyIsStart(f: Flow, x: Sol)
    requires Sized(f, x) && forall b :: 0 <= b < f.Size() ==> x.ins[b] == {} && x.outs[b] == {}
    ensures After(f, x, 0)
  {
  }

  // ---- Reaching the fixpoint ----

  /** Nothing is left to do at any block. */
  ghost predicate Settled(f: Flow, x: Sol)
    requires Sized(f, x)
  {
    forall b :: 0 <= b < f.Size() ==> Update(f, x, b) == x
  }

  /** The live-in sets are exactly the live registers. */
  ghost predicate Exact(f: Flow, x: Sol)
    requires Sized(f, x)
  {
    forall b, v :: 0 <= b < f.Size() ==> (v in x.ins[b] <==> Live(f, b, v))
  }

  /** A solution with exact live-in sets is contained in every other one. */
  lemma ExactIsLeast(f: Flow, x: Sol, ins: Sets, outs: Sets, b: nat)
    requires Sized(f, x) && Exact(f, x) && Solution(f, x.ins, x.outs) && Solution(f, ins, outs) && b < f.Size()
    ensures x.ins[b] <= ins[b] && x.outs[b] <= outs[b]
  {
    forall c: nat, v: nat | c < f.Size() && v in x.ins[c]
      ensures v in ins[c]
    {
      assert Live(f, c, v);
      var k: nat :| Reads(f, c, v, k);
      SolutionContainsPaths(f, ins, outs, c, v, k);
    }
    forall v: nat | v in x.outs[b]
      ensures v in outs[b]
    {
      assert InSome(f, x.ins, b, v);
      assert InSome(f, ins, b, v);
    }
  }

  lemma SettledIsSolution(f: Flow, x: Sol)
    requires Partial(f, x) && Settled(f, x)
    ensures Solution(f, x.ins, x.outs) && Exact(f, x)
  {
    forall b | 0 <= b < f.Size()
      ensures x.ins[b] == TransferIn(f, b, x.outs[b])
    {
      var y := Update(f, x, b);
      assert y == x;
      assert y.ins[b] == TransferIn(f, b, y.outs[b]);
    }
    forall b, v | 0 <= b < f.Size()
      ensures v in x.outs[b] <==> InSome(f, x.ins, b, v)
    {
      UnionIsInSome(f, x.ins, b, v);
      var y := Update(f, x, b);
      assert y.outs[b] == x.outs[b];
    }
    forall b, v | 0 <= b < f.Size() && Live(f, b, v)
      ensures v in x.ins[b]
    {
      var k :| Reads(f, b, v, k);
      SolutionContainsPaths(f, x.ins, x.outs, b, v, k);
    }
  }

  /** v is live out of b. */
  ghost predicate LiveOut(f: Flow, b: nat, v: nat)
    requires f.Valid() && b < f.Size()
  {
    exists s :: s in f.succs[b] && s < f.Size() && Live(f, s, v)
  }

  /** Whatever is live out of a block is read from there with fewer than k retreating edges. */
  ghost predicate Near(f: Flow, k: nat)
    requires f.Valid()
  {
    forall b, v :: 0 <= b < f.Size() && LiveOut(f, b, v) ==> SeenOut(f, b, v, k)
  }

  /** Exactly when k passes leave nothing to do. */
  lemma SettledIffNear(f: Flow, x: Sol, k: nat)
    requires Partial(f, x) && After(f, x, k) && k > 0
    ensures Settled(f, x) <==> Near(f, k)
  {
    if Settled(f, x) {
      SettledIsSolution(f, x);
      forall b, v | 0 <= b < f.Size() && LiveOut(f, b, v)
        ensures SeenOut(f, b, v, k)
      {
        var s :| s in f.succs[b] && s < f.Size() && Live(f, s, v);
        assert v in x.ins[s];
        assert InSome(f, x.ins, b, v);
      }
    }
    if Near(f, k) {
      forall b | 0 <= b < f.Size()
        ensures Update(f, x, b) == x
      {
        NearStays(f, x, k, b);
      }
    }
  }

  lemma NearStays(f: Flow, x: Sol, k: nat, b: nat)
    requires Partial(f, x) && After(f, x, k) && k > 0 && Near(f, k) && b < f.Size()
    ensures Update(f, x, b) == x
  {
    var y := Update(f, x, b);
    forall v | v in UnionIns(f, x.ins, b, |f.succs[b]|)
      ensures v in x.outs[b]
    {
      UnionIsInSome(f, x.ins, b, v);
      var s :| s in f.succs[b] && s < |x.ins| && v in x.ins[s];
      assert LiveOut(f, b, v);
    }
    assert y.outs[b] == x.outs[b];
    forall v
      ensures v in y.ins[b] <==> v in x.ins[b]
    {
      assert v in x.ins[b] <==> Seen(f, b, v, k);
      assert v in x.outs[b] <==> SeenOut(f, b, v, k);
    }
    assert y.ins[b] == x.ins[b];
    assert y.ins == x.ins && y.outs == x.outs;
  }

  lemma NearLonger(f: Flow, k: nat, k': nat)
    requires f.Valid() && k <= k' && Near(f, k)
    ensures Near(f, k')
  {
    forall b, v | 0 <= b < f.Size() && LiveOut(f, b, v)
      ensures SeenOut(f, b, v, k')
    {
      SeenUpTo(f, b, v, k, k');
    }
  }

  /** One retreating edge per block is always enough. */
  lemma FewBlocksAreNear(f: Flow)
    requires f.Valid()
    ensures Near(f, f.Size() + 1)
  {
    forall b, v | 0 <= b < f.Size() && LiveOut(f, b, v)
      ensures SeenOut(f, b, v, f.Size() + 1)
    {
      var s :| s in f.succs[b] && s < f.Size() && Live(f, s, v);
      ShortPathsSuffice(f, s, v);
      ReadsAreSeen(f, s, v, f.Size() - 1);
      SeenMore(f, s, v, f.Size());
    }
  }

  // ---- A function the iteration does not finish ----

  /** n blocks, each branching to the one before it, and register 0 read in the first. */
  function Backward(n: nat): (f: Flow)
    ensures f.Valid() && f.Size() == n
  {
    Flow(seq(n, i => if i == 0 then [] else [i - 1]), seq(n, i => {}), seq(n, i => if i == 0 then {0} else {}))
  }

  lemma {:induction false} BackwardSeen(n: nat, b: nat, k: nat)
    requires b < n
    ensures Seen(Backward(n), b, 0, k) <==> b < k
    ensures SeenOut(Backward(n), b, 0, k) <==> 0 < b < k
    decreases b
  {
    var f := Backward(n);
    if b == 0 {
      assert f.succs[b] == [] && f.use[b] == {0};
    } else {
      assert f.succs[b] == [b - 1] && f.succs[b][0] == b - 1 && f.use[b] == f.def[b] == {};
      if k > 0 {
        BackwardSeen(n, b - 1, k - 1);
        assert Seen(f, b, 0, k) <==> SeenOut(f, b, 0, k);
        assert b - 1 in f.succs[b];
        assert Seen(f, b - 1, 0, k - 1) ==> SeenOut(f, b, 0, k);
      }
    }
  }

  /** Laid out backward, n blocks need n passes to fill the sets and one more to find out. */
  lemma BackwardNear(n: nat, k: nat)
    requires n > 1
    ensures Near(Backward(n), k) <==> n <= k
  {
    var f := Backward(n);
    BackwardSeen(n, n - 1, k);
    BackwardSeen(n, n - 1, n);
    if Near(f, k) {
      assert SeenOut(f, n - 1, 0, n);
      BackwardSeen(n, n - 2, n);
      SeenIsLive(f, n - 2, 0, n);
      assert f.succs[n - 1][0] == n - 2;
      assert LiveOut(f, n - 1, 0);
    }
    if n <= k {
      forall b, v | 0 <= b < n && LiveOut(f, b, v)
        ensures SeenOut(f, b, v, k)
      {
        BackwardLive(n, b, v);
        BackwardSeen(n, b, k);
      }
    }
  }

  lemma BackwardLive(n: nat, b: nat, v: nat)
    requires b < n && LiveOut(Backward(n), b, v)
    ensures b > 0 && v == 0
  {
    var f := Backward(n);
    var s :| s in f.succs[b] && s < f.Size() && Live(f, s, v);
    var k: nat :| Reads(f, s, v, k);
    BackwardReads(n, s, v, k);
  }

  lemma {:induction false} BackwardReads(n: nat, b: nat, v: nat, k: nat)
    requires b < n && Reads(Backward(n), b, v, k)
    ensures v == 0
    decreases k
  {
    var f := Backward(n);
    if v !in f.use[b] {
      var s :| s in f.succs[b] && s < f.Size() && Reads(f, s, v, k - 1);
      BackwardReads(n, s, v, k - 1);
    }
  }

  lemma {:induction false} SeenIsLive(f: Flow, b: nat, v: nat, k: nat)
    requires f.Valid() && b < f.Size() && Seen(f, b, v, k)
    ensures Live(f, b, v)
    decreases k, f.Size() - b
  {
    if v in f.use[b] {
      assert Reads(f, b, v, 0);
    } else {
      var s :| s in f.succs[b] && s < f.Size() && if s > b then Seen(f, s, v, k) else k > 0 && Seen(f, s, v, k - 1);
      SeenIsLive(f, s, v, if s > b then k else k - 1);
      LiveThrough(f, b, v, s);
    }
  }

  // ---- ra_cpliv ----

  /** The live-out half of a block's update: or in the live-in sets of its successors. */
  method MergeSuccessors(f: Flow, b: nat, liveIn: array<set<nat>>, liveOut: array<set<nat>>) returns (changed: bool)
    requires f.Valid() && b < f.Size() == liveIn.Length == liveOut.Length && liveIn != liveOut
    modifies liveOut
    ensures liveOut[..] == old(liveOut[..])[b := old(liveOut[b]) + UnionIns(f, liveIn[..], b, |f.succs[b]|)]
    ensures changed <==> liveOut[b] != old(liveOut[b])
  {
    changed := false;
    ghost var ins, was := liveIn[..], liveOut[b];
    for s := 0 to |f.succs[b]|
      invariant liveIn[..] == ins
      invariant liveOut[b] == was + UnionIns(f, ins, b, s)
      invariant forall c :: 0 <= c < liveOut.Length && c != b ==> liveOut[c] == old(liveOut[c])
      invariant changed <==> liveOut[b] != was
    {
      var merged := liveOut[b] + liveIn[f.succs[b][s]];
      if merged != liveOut[b] {
        changed := true;
      }
      liveOut[b] := merged;
    }
  }

  /** One pass over the blocks, last to first. */
  method OnePass(f: Flow, liveIn: array<set<nat>>, liveOut: array<set<nat>>, ghost x: Sol) returns (changed: bool)
    requires f.Valid() && f.Size() == liveIn.Length == liveOut.Length && liveIn != liveOut
    requires x == Sol(liveIn[..], liveOut[..])
    modifies liveIn, liveOut
    ensures Sol(liveIn[..], liveOut[..]) == Pass(f, x, f.Size())
    ensures !changed ==> Sol(liveIn[..], liveOut[..]) == x && Settled(f, x)
    ensures Settled(f, x) ==> !changed
  {
    changed := false;
    var n := f.Size();
    while n > 0
      invariant 0 <= n <= f.Size()
      invariant Pass(f, Sol(liveIn[..], liveOut[..]), n) == Pass(f, x, f.Size())
      invariant !changed ==> Sol(liveIn[..], liveOut[..]) == x
      invariant !changed ==> forall b :: n <= b < f.Size() ==> Update(f, x, b) == x
      invariant Settled(f, x) ==> !changed
    {
      ghost var here := Sol(liveIn[..], liveOut[..]);
      n := n - 1;
      var grew := MergeSuccessors(f, n, liveIn, liveOut);
      var newIn := TransferIn(f, n, liveOut[n]);
      if grew {
        changed := true;
      }
      if newIn != liveIn[n] {
        liveIn[n] := newIn;
        changed := true;
      }
      assert liveIn[..] == here.ins[n := newIn];
      assert Sol(liveIn[..], liveOut[..]) == Update(f, here, n);
    }
  }

  /** Iterate from empty sets until a pass changes nothing, or 200 passes have run.  On an
      unchanged pass the result solves the equations and is contained in every other solution.
      That happens exactly when everything live out of a block is read from there with at most
      198 retreating edges, so always with at most 198 blocks; a result cut short holds what is
      read with at most 199. */
  method Solve(f: Flow) returns (liveIn: array<set<nat>>, liveOut: array<set<nat>>, settled: bool)
    requires f.Valid()
    ensures fresh(liveIn) && fresh(liveOut) && Partial(f, Sol(liveIn[..], liveOut[..]))
    ensures settled ==> Solution(f, liveIn[..], liveOut[..]) && Exact(f, Sol(liveIn[..], liveOut[..]))
    ensures settled <==> Near(f, MAX_PASSES - 1)
    ensures !settled ==> After(f, Sol(liveIn[..], liveOut[..]), MAX_PASSES)
    ensures f.Size() + 1 < MAX_PASSES ==> settled
  {
    liveIn := new set<nat>[f.Size()](_ => {});
    liveOut := new set<nat>[f.Size()](_ => {});
    settled := false;
    ghost var x := Sol(liveIn[..], liveOut[..]);
    var pass := 0;
    assert Partial(f, x);
    hide Partial, Midway, After, Settled, Exact, Near, Grown, Solution;
    EmptyIsStart(f, x);
    EnoughPasses(f);
    while pass < MAX_PASSES
      invariant 0 <= pass <= MAX_PASSES && !settled
      invariant fresh(liveIn) && fresh(liveOut) && liveIn != liveOut
      invariant f.Size() == liveIn.Length == liveOut.Length
      invariant x == Sol(liveIn[..], liveOut[..]) && Partial(f, x) && After(f, x, pass)
      invariant pass == MAX_PASSES ==> !Near(f, MAX_PASSES - 1)
    {
      var changed := OnePass(f, liveIn, liveOut, x);
      if !changed {
        settled := true;
        SettledIsSolution(f, x);
        SettledAt(f, x, pass);
        return;
      }
      SettledAt(f, x, pass);
      PassKeeps(f, x, f.Size());
      PassAfter(f, x, pass);
      x := Sol(liveIn[..], liveOut[..]);
      pass := pass + 1;
    }
  }

  lemma EnoughPasses(f: Flow)
    requires f.Valid()
    ensures f.Size() + 1 < MAX_PASSES ==> Near(f, MAX_PASSES - 1)
  {
    if f.Size() + 1 < MAX_PASSES {
      FewBlocksAreNear(f);
      NearLonger(f, f.Size() + 1, MAX_PASSES - 1);
    }
  }

  lemma SettledAt(f: Flow, x: Sol, pass: nat)
    requires Partial(f, x) && After(f, x, pass) && pass < MAX_PASSES
    ensures Settled(f, x) ==> Near(f, MAX_PASSES - 1)
    ensures pass == MAX_PASSES - 1 && Near(f, MAX_PASSES - 1) ==> Settled(f, x)
  {
    if pass > 0 {
      SettledIffNear(f, x, pass);
      if Near(f, pass) {
        NearLonger(f, pass, MAX_PASSES - 1);
      }
    } else if Settled(f, x) {
      SettledIsSolution(f, x);
      NothingLive(f, x);
    }
  }

  lemma NothingLive(f: Flow, x: Sol)
    requires After(f, x, 0) && Exact(f, x)
    ensures Near(f, MAX_PASSES - 1)
  {
    assert forall b, v :: 0 <= b < f.Size() ==> !Live(f, b, v);
  }
}
