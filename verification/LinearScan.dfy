/** The linear-scan allocator: expiring intervals, farthest-end eviction, spill slots. */
module LinearScan {
  import FiniteSets
  import opened Registers
  import opened LinearScanSpec

  const NONE: int := 0xFFFF
  const MAX_SGPRS: int := 102
  const MAX_VGPRS: int := 256
  const RELAY_S: int := 99
  const RELAY_S2: int := 98
  const VGPR_CEIL: int := 250
  const MFMA_LO: int := 208
  const KERN_MIN_RESERVED: int := 2
  const MAX_SPILL: int := 512

  /** The registers the allocator may hand out, per file. */
  datatype Pools = Pools(scalar: set<int>, vector: set<int>) {
    function Of(f: File): set<int> {
      if f.Scalar? then scalar else vector
    }

    ghost predicate Valid() {
      (forall r :: r in scalar ==> 0 <= r < MAX_SGPRS) && (forall r :: r in vector ==> 0 <= r < MAX_VGPRS)
    }
  }

  /** The allocator's tables: the register and spill flag of each vreg, the two free stacks, the
      active list and the high-water marks. */
  datatype State = State(phys: seq<int>, spilled: seq<bool>, freeS: seq<int>, freeV: seq<int>, active: seq<nat>,
                         maxS: int, maxV: int)
  {
    function Free(f: File): seq<int> {
      if f.Scalar? then freeS else freeV
    }

    function Max(f: File): int {
      if f.Scalar? then maxS else maxV
    }
  }

  // ---- The invariants ----

  ghost predicate Typed(ivs: seq<Interval>, st: State) {
    && |st.phys| == |st.spilled| == |ivs|
    && (forall v :: v in st.active ==> v < |ivs|)
    && (forall i :: 0 <= i < |st.active| ==> st.active[i] < |ivs|)
    && (forall i, j :: 0 <= i < j < |st.active| ==> st.active[i] != st.active[j])
  }

  /** An active interval of file f holds register r. */
  ghost predicate Held(ivs: seq<Interval>, st: State, f: File, r: int)
    requires Typed(ivs, st)
  {
    exists v :: v in st.active && ivs[v].file == f && st.phys[v] == r
  }

  /** The free stack and the registers of the active intervals partition the pool. */
  ghost predicate Pooled(ivs: seq<Interval>, pool: set<int>, st: State, f: File)
    requires Typed(ivs, st)
  {
    && (forall i, j :: 0 <= i < j < |st.Free(f)| ==> st.Free(f)[i] != st.Free(f)[j])
    && (forall r :: r in st.Free(f) ==> r in pool)
    && (forall v :: v in st.active && ivs[v].file == f ==> st.phys[v] in pool && st.phys[v] !in st.Free(f))
    && (forall u, v :: u in st.active && v in st.active && ivs[u].file == ivs[v].file == f && u != v ==>
          st.phys[u] != st.phys[v])
    && (forall r :: r in pool ==> r in st.Free(f) || Held(ivs, st, f, r))
  }

  ghost predicate Partition(ivs: seq<Interval>, pools: Pools, st: State) {
    && Typed(ivs, st)
    && Pooled(ivs, pools.scalar, st, Scalar)
    && Pooled(ivs, pools.vector, st, Vector)
  }

  /** What is true of the intervals handled so far, at the start point `cur` of the latest. */
  ghost predicate Sound(ivs: seq<Interval>, pools: Pools, st: State, done: set<nat>, cur: int) {
    && Typed(ivs, st) && Indices(ivs, done)
    && (forall v :: v in st.active ==> v in done && !st.spilled[v])
    && (forall v :: v in done ==> ivs[v].start <= cur && ivs[v].start <= ivs[v].end)
    && (forall v :: v in done && !st.spilled[v] && ivs[v].end >= cur ==> v in st.active)
    && (forall v :: v in done ==> (st.spilled[v] <==> st.phys[v] == NONE))
    && (forall v :: v in done && !st.spilled[v] ==>
          st.phys[v] in pools.Of(ivs[v].file) && st.phys[v] < st.Max(ivs[v].file))
  }

  /** Two unspilled intervals of one file that overlap. */
  predicate Clash(ivs: seq<Interval>, st: State, u: nat, v: nat)
    requires u < |ivs| && v < |ivs| && |st.spilled| == |ivs|
  {
    !st.spilled[u] && !st.spilled[v] && ivs[u].file == ivs[v].file && Overlap(ivs[u], ivs[v])
  }

  /** Overlapping intervals left in registers hold different ones. */
  ghost predicate Apart(ivs: seq<Interval>, st: State, done: set<nat>)
    requires Indices(ivs, done) && |st.phys| == |st.spilled| == |ivs|
  {
    forall u, v :: u in done && v in done && u != v && Clash(ivs, st, u, v) ==> st.phys[u] != st.phys[v]
  }

  /** The intervals of file f handled so far. */
  ghost function Seen(ivs: seq<Interval>, done: set<nat>, f: File): set<nat>
    requires Indices(ivs, done)
  {
    set v | v in done && ivs[v].file == f
  }

  /** Those among them still in a register. */
  ghost function Kept(ivs: seq<Interval>, st: State, done: set<nat>, f: File): set<nat>
    requires Indices(ivs, done) && |st.spilled| == |ivs|
  {
    set v | v in done && ivs[v].file == f && !st.spilled[v]
  }

  ghost predicate Best(ivs: seq<Interval>, pools: Pools, st: State, done: set<nat>, cur: int, f: File)
    requires Indices(ivs, done) && |st.spilled| == |ivs|
  {
    Dominates(ivs, |pools.Of(f)|, Seen(ivs, done, f), Kept(ivs, st, done, f), cur)
  }

  ghost predicate Good(ivs: seq<Interval>, pools: Pools, st: State, done: set<nat>, cur: int) {
    && pools.Valid()
    && Partition(ivs, pools, st)
    && Sound(ivs, pools, st, done, cur)
    && Apart(ivs, st, done)
    && Best(ivs, pools, st, done, cur, Scalar)
    && Best(ivs, pools, st, done, cur, Vector)
  }

  // ---- Expiry ----

  function Without(s: seq<nat>, k: nat): seq<nat>
    requires k < |s|
  {
    s[..k] + s[k + 1..]
  }

  /** Drop the k-th active interval and push its register back on the stack of its file. */
  function Release(ivs: seq<Interval>, st: State, k: nat): State
    requires k < |st.active| && st.active[k] < |ivs| && st.active[k] < |st.phys|
  {
    var v := st.active[k];
    var r := st.phys[v];
    var dropped := st.(active := Without(st.active, k));
    if ivs[v].file.Scalar? && r < MAX_SGPRS then dropped.(freeS := st.freeS + [r])
    else if r < MAX_VGPRS then dropped.(freeV := st.freeV + [r])
    else dropped
  }

  lemma ActiveWithout(s: seq<nat>, k: nat, v: nat)
    requires k < |s| && forall i, j :: 0 <= i < j < |s| ==> s[i] != s[j]
    ensures v in Without(s, k) <==> v in s && v != s[k]
    ensures forall i, j :: 0 <= i < j < |Without(s, k)| ==> Without(s, k)[i] != Without(s, k)[j]
  {
    if v in s && v != s[k] {
      var i :| 0 <= i < |s| && s[i] == v;
      assert Without(s, k)[if i < k then i else i - 1] == v;
    }
  }

  lemma ReleaseTyped(ivs: seq<Interval>, st: State, k: nat)
    requires Typed(ivs, st) && k < |st.active|
    ensures Typed(ivs, Release(ivs, st, k))
    ensures forall v :: v in Release(ivs, st, k).active <==> v in st.active && v != st.active[k]
  {
    forall v
      ensures v in Release(ivs, st, k).active <==> v in st.active && v != st.active[k]
    {
      ActiveWithout(st.active, k, v);
    }
  }

  /** A change that leaves the stack and the active intervals of file f alone keeps its
      partition. */
  lemma SameHoldings(ivs: seq<Interval>, pool: set<int>, st: State, st': State, f: File)
    requires Typed(ivs, st) && Typed(ivs, st') && Pooled(ivs, pool, st, f) && st'.Free(f) == st.Free(f)
    requires forall u: nat :: u < |ivs| && ivs[u].file == f ==> (u in st.active <==> u in st'.active)
    requires forall u :: u in st.active && ivs[u].file == f ==> st'.phys[u] == st.phys[u]
    ensures Pooled(ivs, pool, st', f)
  {
    forall r | r in pool
      ensures r in st'.Free(f) || Held(ivs, st', f, r)
    {
      if r !in st.Free(f) {
        var u :| u in st.active && ivs[u].file == f && st.phys[u] == r;
        assert u in st'.active && st'.phys[u] == r;
      }
    }
  }

  lemma ReleaseSameFile(ivs: seq<Interval>, pools: Pools, st: State, k: nat, f: File)
    requires Typed(ivs, st) && k < |st.active| && pools.Valid()
    requires Pooled(ivs, pools.Of(f), st, f) && ivs[st.active[k]].file == f
    ensures Typed(ivs, Release(ivs, st, k)) && Pooled(ivs, pools.Of(f), Release(ivs, st, k), f)
  {
    var st' := Release(ivs, st, k);
    var w := st.active[k];
    ReleaseTyped(ivs, st, k);
    assert st'.Free(f) == st.Free(f) + [st.phys[w]];
    forall r | r in pools.Of(f)
      ensures r in st'.Free(f) || Held(ivs, st', f, r)
    {
      if r !in st.Free(f) && r != st.phys[w] {
        var v :| v in st.active && ivs[v].file == f && st.phys[v] == r;
        assert v in st'.active;
      }
    }
  }

  lemma ReleaseOtherFile(ivs: seq<Interval>, pools: Pools, st: State, k: nat, f: File)
    requires Typed(ivs, st) && k < |st.active| && pools.Valid()
    requires Pooled(ivs, pools.Of(f), st, f) && ivs[st.active[k]].file != f
    requires st.phys[st.active[k]] in pools.Of(ivs[st.active[k]].file)
    ensures Typed(ivs, Release(ivs, st, k)) && Pooled(ivs, pools.Of(f), Release(ivs, st, k), f)
  {
    ReleaseTyped(ivs, st, k);
    SameHoldings(ivs, pools.Of(f), st, Release(ivs, st, k), f);
  }

  lemma ReleaseKeepsPartition(ivs: seq<Interval>, pools: Pools, st: State, k: nat)
    requires Partition(ivs, pools, st) && k < |st.active| && pools.Valid()
    ensures Partition(ivs, pools, Release(ivs, st, k))
  {
    hide Release;
    if ivs[st.active[k]].file.Scalar? {
      ReleaseSameFile(ivs, pools, st, k, Scalar);
      ReleaseOtherFile(ivs, pools, st, k, Vector);
    } else {
      ReleaseOtherFile(ivs, pools, st, k, Scalar);
      ReleaseSameFile(ivs, pools, st, k, Vector);
    }
  }

  /** Release every active interval from position k on that ended before `point`. */
  function Expire(ivs: seq<Interval>, st: State, k: nat, point: int): State
    requires Typed(ivs, st) && k <= |st.active|
    decreases |st.active| - k
  {
    if k == |st.active| then st
    else if ivs[st.active[k]].end >= point then Expire(ivs, st, k + 1, point)
    else
      ReleaseTyped(ivs, st, k);
      Expire(ivs, Release(ivs, st, k), k, point)
  }

  /** Expiry from position k of st leads to the state `end`. */
  ghost predicate ExpiresTo(ivs: seq<Interval>, st: State, k: nat, point: int, end: State) {
    Typed(ivs, st) && k <= |st.active| && Expire(ivs, st, k, point) == end
  }

  lemma ExpiresStep(ivs: seq<Interval>, st: State, k: nat, point: int, end: State)
    requires ExpiresTo(ivs, st, k, point, end) && k < |st.active|
    ensures st.active[k] < |ivs| == |st.phys|
    ensures ivs[st.active[k]].end >= point ==> ExpiresTo(ivs, st, k + 1, point, end)
    ensures ivs[st.active[k]].end < point ==> ExpiresTo(ivs, Release(ivs, st, k), k, point, end)
  {
    ReleaseTyped(ivs, st, k);
  }

  /** The list under compaction: what has been kept, then what has not been looked at. */
  ghost predicate Remaining(now: seq<nat>, kept: seq<nat>, was: seq<nat>, i: nat) {
    && i <= |was| && |now| == |kept| + |was| - i
    && (forall j :: 0 <= j < |kept| ==> now[j] == kept[j])
    && (forall j :: i <= j < |was| ==> now[|kept| + j - i] == was[j])
  }

  lemma RemainingStep(now: seq<nat>, kept: seq<nat>, was: seq<nat>, i: nat)
    requires Remaining(now, kept, was, i) && i < |was|
    ensures |kept| < |now| && now[|kept|] == was[i]
    ensures Remaining(now, kept + [was[i]], was, i + 1)
    ensures Remaining(Without(now, |kept|), kept, was, i + 1)
  {
    assert now[|kept| + i - i] == was[i];
    var now' := Without(now, |kept|);
    forall j | i + 1 <= j < |was|
      ensures now'[|kept| + j - (i + 1)] == was[j]
    {
      assert now'[|kept| + j - (i + 1)] == now[|kept| + j - i];
    }
  }

  lemma RemainingDone(now: seq<nat>, kept: seq<nat>, was: seq<nat>)
    requires Remaining(now, kept, was, |was|)
    ensures now == kept
  {
  }

  /** The state of the compacting loop before it looks at was[i]. */
  ghost predicate Compacting(ivs: seq<Interval>, st: State, kept: seq<nat>, was: seq<nat>, i: nat, point: int,
      end: State) {
    Remaining(st.active, kept, was, i) && ExpiresTo(ivs, st, |kept|, point, end)
  }

  /** What one iteration does to the free stacks. */
  function Freed(ivs: seq<Interval>, st: State, v: nat): State
    requires v < |ivs| && v < |st.phys|
  {
    if ivs[v].file.Scalar? && st.phys[v] < MAX_SGPRS then st.(freeS := st.freeS + [st.phys[v]])
    else if st.phys[v] < MAX_VGPRS then st.(freeV := st.freeV + [st.phys[v]])
    else st
  }

  lemma CompactingStep(ivs: seq<Interval>, st: State, kept: seq<nat>, was: seq<nat>, i: nat, point: int, end: State)
    returns (next: seq<nat>)
    requires Compacting(ivs, st, kept, was, i, point, end) && i < |was|
    ensures was[i] < |ivs| == |st.phys|
    ensures ivs[was[i]].end >= point ==> Compacting(ivs, st, kept + [was[i]], was, i + 1, point, end)
    ensures ivs[was[i]].end < point ==>
              Compacting(ivs, Freed(ivs, st, was[i]).(active := next), kept, was, i + 1, point, end)
  {
    hide ExpiresTo, Remaining;
    RemainingStep(st.active, kept, was, i);
    ExpiresStep(ivs, st, |kept|, point, end);
    next := Without(st.active, |kept|);
    assert ivs[was[i]].end < point ==> Release(ivs, st, |kept|) == Freed(ivs, st, was[i]).(active := next);
  }

  lemma CompactingDone(ivs: seq<Interval>, st: State, kept: seq<nat>, was: seq<nat>, point: int, end: State)
    requires Compacting(ivs, st, kept, was, |was|, point, end)
    ensures st.active == kept && st == end
  {
    RemainingDone(st.active, kept, was);
    ExpiresDone(ivs, st, |kept|, point, end);
  }

  lemma ExpiresDone(ivs: seq<Interval>, st: State, k: nat, point: int, end: State)
    requires ExpiresTo(ivs, st, k, point, end) && k == |st.active|
    ensures st == end
  {
  }

  lemma {:induction false} ExpireKeeps(ivs: seq<Interval>, pools: Pools, st: State, k: nat, point: int)
    requires Partition(ivs, pools, st) && pools.Valid() && k <= |st.active|
    requires forall i :: 0 <= i < k ==> ivs[st.active[i]].end >= point
    ensures var st' := Expire(ivs, st, k, point);
            && Partition(ivs, pools, st')
            && st'.phys == st.phys && st'.spilled == st.spilled && st'.maxS == st.maxS && st'.maxV == st.maxV
            && (forall v :: v in st'.active <==> v in st.active && ivs[v].end >= point)
    decreases |st.active| - k
  {
    hide Pooled;
    if k == |st.active| {
    } else if ivs[st.active[k]].end >= point {
      ExpireKeeps(ivs, pools, st, k + 1, point);
    } else {
      ReleaseKeepsPartition(ivs, pools, st, k);
      ReleaseTyped(ivs, st, k);
      var mid := Release(ivs, st, k);
      assert forall i :: 0 <= i < k ==> mid.active[i] == st.active[i];
      ExpireKeeps(ivs, pools, mid, k, point);
    }
  }

  lemma ExpireGood(ivs: seq<Interval>, pools: Pools, st: State, done: set<nat>, cur: int, point: int)
    requires Good(ivs, pools, st, done, cur) && cur <= point
    ensures Good(ivs, pools, Expire(ivs, st, 0, point), done, point)
    ensures forall v :: v in Expire(ivs, st, 0, point).active ==> ivs[v].end >= point
  {
    hide Pooled, Expire, Dominates;
    ExpireKeeps(ivs, pools, st, 0, point);
    var st' := Expire(ivs, st, 0, point);
    assert Kept(ivs, st', done, Scalar) == Kept(ivs, st, done, Scalar);
    assert Kept(ivs, st', done, Vector) == Kept(ivs, st, done, Vector);
    LaterDominates(ivs, |pools.scalar|, Seen(ivs, done, Scalar), Kept(ivs, st, done, Scalar), cur, point);
    LaterDominates(ivs, |pools.vector|, Seen(ivs, done, Vector), Kept(ivs, st, done, Vector), cur, point);
  }

  // ---- Assigning one interval ----

  /** Pop the free stack of the interval's file. */
  function Take(ivs: seq<Interval>, st: State, v: nat): State
    requires v < |ivs| && v < |st.phys| && st.Free(ivs[v].file) != []
  {
    var free := st.Free(ivs[v].file);
    var r := free[|free| - 1];
    var st1 := st.(phys := st.phys[v := r], active := st.active + [v]);
    if ivs[v].file.Scalar? then st1.(freeS := free[..|free| - 1], maxS := if r >= st.maxS then r + 1 else st.maxS)
    else st1.(freeV := free[..|free| - 1], maxV := if r >= st.maxV then r + 1 else st.maxV)
  }

  /** Spill the k-th active interval and give its register to v. */
  function Evict(st: State, v: nat, k: nat): State
    requires k < |st.active| && v < |st.phys| == |st.spilled| && st.active[k] < |st.phys|
  {
    var far := st.active[k];
    var last := |st.active| - 1;
    st.(phys := st.phys[far := NONE][v := st.phys[far]],
        spilled := st.spilled[far := true],
        active := st.active[k := st.active[last]][..last] + [v])
  }

  /** Spill the newcomer itself. */
  function SelfSpill(st: State, v: nat): State
    requires v < |st.phys| == |st.spilled|
  {
    st.(phys := st.phys[v := NONE], spilled := st.spilled[v := true])
  }

  /** The farthest end among the first n active intervals of file f and the first position that
      attains it; (0, 0) when no end is above zero. */
  function Farthest(ivs: seq<Interval>, active: seq<nat>, f: File, n: nat): (int, nat)
    requires n <= |active| && forall i :: 0 <= i < |active| ==> active[i] < |ivs|
  {
    if n == 0 then (0, 0)
    else
      var (best, k) := Farthest(ivs, active, f, n - 1);
      var iv := ivs[active[n - 1]];
      if iv.file == f && iv.end > best then (iv.end, n - 1) else (best, k)
  }

  lemma {:induction false} FarthestIsMax(ivs: seq<Interval>, active: seq<nat>, f: File, n: nat)
    requires n <= |active| && forall i :: 0 <= i < |active| ==> active[i] < |ivs|
    ensures var (best, k) := Farthest(ivs, active, f, n);
            && (forall i :: 0 <= i < n && ivs[active[i]].file == f ==> ivs[active[i]].end <= best)
            && (best > 0 ==> k < n && ivs[active[k]].file == f && ivs[active[k]].end == best)
            && best >= 0
  {
    if n > 0 {
      FarthestIsMax(ivs, active, f, n - 1);
    }
  }

  /** One iteration of the scan, after expiry. */
  function Assign(ivs: seq<Interval>, st: State, v: nat): State
    requires Typed(ivs, st) && v < |ivs|
  {
    if st.Free(ivs[v].file) != [] then Take(ivs, st, v)
    else
      var (best, k) := Farthest(ivs, st.active, ivs[v].file, |st.active|);
      if best > ivs[v].end && |st.active| > 0 then
        FarthestIsMax(ivs, st.active, ivs[v].file, |st.active|);
        Evict(st, v, k)
      else SelfSpill(st, v)
  }

  /** The newcomer: not handled before, starting now, its flag still clear. */
  ghost predicate Arrives(ivs: seq<Interval>, st: State, done: set<nat>, cur: int, v: nat) {
    && v < |ivs| && |st.spilled| == |ivs|
    && v !in done && !st.spilled[v] && ivs[v].start == cur <= ivs[v].end
    && (forall u :: u in st.active ==> u < |ivs| && ivs[u].end >= cur)
  }

  // Taking a free register

  lemma TakeTyped(ivs: seq<Interval>, st: State, v: nat)
    requires Typed(ivs, st) && v < |ivs| && v !in st.active && st.Free(ivs[v].file) != []
    ensures Typed(ivs, Take(ivs, st, v))
    ensures forall u :: u in Take(ivs, st, v).active <==> u in st.active || u == v
  {
    var st' := Take(ivs, st, v);
    assert st'.active == st.active + [v];
  }

  lemma TakeOwnFile(ivs: seq<Interval>, pool: set<int>, st: State, v: nat)
    requires Typed(ivs, st) && v < |ivs| && v !in st.active && st.Free(ivs[v].file) != []
    requires Pooled(ivs, pool, st, ivs[v].file)
    ensures Typed(ivs, Take(ivs, st, v)) && Pooled(ivs, pool, Take(ivs, st, v), ivs[v].file)
  {
    var f, st' := ivs[v].file, Take(ivs, st, v);
    TakeTyped(ivs, st, v);
    var free := st.Free(f);
    var n := |free| - 1;
    assert free == free[..n] + [free[n]];
    assert st'.Free(f) == free[..n];
    forall r | r in pool
      ensures r in st'.Free(f) || Held(ivs, st', f, r)
    {
      if r == free[n] {
        assert v in st'.active && st'.phys[v] == r;
      } else if r !in free {
        var u :| u in st.active && ivs[u].file == f && st.phys[u] == r;
        assert u in st'.active && st'.phys[u] == r;
      }
    }
  }

  lemma TakeOtherFile(ivs: seq<Interval>, pool: set<int>, st: State, v: nat, f: File)
    requires Typed(ivs, st) && v < |ivs| && v !in st.active && st.Free(ivs[v].file) != []
    requires Pooled(ivs, pool, st, f) && f != ivs[v].file
    ensures Typed(ivs, Take(ivs, st, v)) && Pooled(ivs, pool, Take(ivs, st, v), f)
  {
    TakeTyped(ivs, st, v);
    SameHoldings(ivs, pool, st, Take(ivs, st, v), f);
  }

  lemma TakePartition(ivs: seq<Interval>, pools: Pools, st: State, v: nat)
    requires Partition(ivs, pools, st) && v < |ivs| && v !in st.active && st.Free(ivs[v].file) != []
    ensures Partition(ivs, pools, Take(ivs, st, v))
  {
    hide Take, Pooled;
    if ivs[v].file.Scalar? {
      TakeOwnFile(ivs, pools.scalar, st, v);
      TakeOtherFile(ivs, pools.vector, st, v, Vector);
    } else {
      TakeOwnFile(ivs, pools.vector, st, v);
      TakeOtherFile(ivs, pools.scalar, st, v, Scalar);
    }
  }

  lemma PooledTop(ivs: seq<Interval>, pools: Pools, st: State, f: File)
    requires Partition(ivs, pools, st) && st.Free(f) != []
    ensures st.Free(f)[|st.Free(f)| - 1] in pools.Of(f)
  {
    if f.Scalar? {
      TopOfPool(ivs, pools.scalar, st, Scalar);
    } else {
      TopOfPool(ivs, pools.vector, st, Vector);
    }
  }

  lemma TopOfPool(ivs: seq<Interval>, pool: set<int>, st: State, f: File)
    requires Typed(ivs, st) && Pooled(ivs, pool, st, f) && st.Free(f) != []
    ensures st.Free(f)[|st.Free(f)| - 1] in pool
  {
    var free := st.Free(f);
    var r := free[|free| - 1];
    assert r in free;
  }

  lemma TakeSound(ivs: seq<Interval>, pools: Pools, st: State, done: set<nat>, cur: int, v: nat)
    requires pools.Valid() && Partition(ivs, pools, st) && Sound(ivs, pools, st, done, cur)
    requires Arrives(ivs, st, done, cur, v) && st.Free(ivs[v].file) != []
    ensures Sound(ivs, pools, Take(ivs, st, v), done + {v}, cur)
  {
    PooledTop(ivs, pools, st, ivs[v].file);
    hide Pooled;
    TakeTyped(ivs, st, v);
  }

  lemma TakeApart(ivs: seq<Interval>, pools: Pools, st: State, done: set<nat>, cur: int, v: nat)
    requires Partition(ivs, pools, st) && Sound(ivs, pools, st, done, cur) && Apart(ivs, st, done)
    requires Arrives(ivs, st, done, cur, v) && st.Free(ivs[v].file) != []
    ensures Apart(ivs, Take(ivs, st, v), done + {v})
  {
    var st' := Take(ivs, st, v);
    var free := st.Free(ivs[v].file);
    assert free[|free| - 1] in free;
    forall u | u in done && Clash(ivs, st', u, v)
      ensures st'.phys[u] != st'.phys[v]
    {
      assert u in st.active;
    }
    assert forall u, w :: u in done && w in done && u != w && Clash(ivs, st', u, w) ==> Clash(ivs, st, u, w);
  }

  // Evicting the farthest

  lemma EvictTyped(ivs: seq<Interval>, st: State, v: nat, k: nat)
    requires Typed(ivs, st) && v < |ivs| && v !in st.active && k < |st.active|
    ensures Typed(ivs, Evict(st, v, k))
    ensures forall u :: u in Evict(st, v, k).active <==> (u in st.active && u != st.active[k]) || u == v
  {
    var st' := Evict(st, v, k);
    var last := |st.active| - 1;
    var body := st.active[k := st.active[last]][..last];
    assert st'.active == body + [v];
    forall u | u in st.active && u != st.active[k]
      ensures u in body
    {
      var i :| 0 <= i < |st.active| && st.active[i] == u;
      assert body[if i == last then k else i] == u;
    }
    forall u | u in body
      ensures u in st.active && u != st.active[k]
    {
      var i :| 0 <= i < |body| && body[i] == u;
    }
  }

  lemma EvictOwnFile(ivs: seq<Interval>, pool: set<int>, st: State, v: nat, k: nat)
    requires Typed(ivs, st) && v < |ivs| && v !in st.active && k < |st.active|
    requires ivs[st.active[k]].file == ivs[v].file && Pooled(ivs, pool, st, ivs[v].file)
    ensures Typed(ivs, Evict(st, v, k)) && Pooled(ivs, pool, Evict(st, v, k), ivs[v].file)
  {
    var f, st', far := ivs[v].file, Evict(st, v, k), st.active[k];
    EvictTyped(ivs, st, v, k);
    assert far in st.active;
    forall r | r in pool
      ensures r in st'.Free(f) || Held(ivs, st', f, r)
    {
      if r !in st.Free(f) {
        var u :| u in st.active && ivs[u].file == f && st.phys[u] == r;
        var w := if u == far then v else u;
        assert w in st'.active && st'.phys[w] == r;
      }
    }
  }

  lemma EvictOtherFile(ivs: seq<Interval>, pool: set<int>, st: State, v: nat, k: nat, f: File)
    requires Typed(ivs, st) && v < |ivs| && v !in st.active && k < |st.active|
    requires ivs[st.active[k]].file == ivs[v].file != f && Pooled(ivs, pool, st, f)
    ensures Typed(ivs, Evict(st, v, k)) && Pooled(ivs, pool, Evict(st, v, k), f)
  {
    EvictTyped(ivs, st, v, k);
    SameHoldings(ivs, pool, st, Evict(st, v, k), f);
  }

  lemma EvictPartition(ivs: seq<Interval>, pools: Pools, st: State, v: nat, k: nat)
    requires Partition(ivs, pools, st) && v < |ivs| && v !in st.active && k < |st.active|
    requires ivs[st.active[k]].file == ivs[v].file
    ensures Partition(ivs, pools, Evict(st, v, k))
  {
    hide Evict, Pooled;
    if ivs[v].file.Scalar? {
      EvictOwnFile(ivs, pools.scalar, st, v, k);
      EvictOtherFile(ivs, pools.vector, st, v, k, Vector);
    } else {
      EvictOwnFile(ivs, pools.vector, st, v, k);
      EvictOtherFile(ivs, pools.scalar, st, v, k, Scalar);
    }
  }

  lemma EvictSound(ivs: seq<Interval>, pools: Pools, st: State, done: set<nat>, cur: int, v: nat, k: nat)
    requires pools.Valid() && Sound(ivs, pools, st, done, cur) && Arrives(ivs, st, done, cur, v)
    requires k < |st.active| && ivs[st.active[k]].file == ivs[v].file
    ensures Sound(ivs, pools, Evict(st, v, k), done + {v}, cur)
  {
    EvictTyped(ivs, st, v, k);
    assert st.active[k] in st.active;
  }

  lemma EvictApart(ivs: seq<Interval>, pools: Pools, st: State, done: set<nat>, cur: int, v: nat, k: nat)
    requires Partition(ivs, pools, st) && Sound(ivs, pools, st, done, cur) && Apart(ivs, st, done)
    requires Arrives(ivs, st, done, cur, v)
    requires k < |st.active| && ivs[st.active[k]].file == ivs[v].file
    ensures Apart(ivs, Evict(st, v, k), done + {v})
  {
    var st', far := Evict(st, v, k), st.active[k];
    assert far in st.active;
    forall u | u in done && Clash(ivs, st', u, v)
      ensures st'.phys[u] != st'.phys[v]
    {
      assert u in st.active && u != far;
    }
    assert forall u, w :: u in done && w in done && u != w && Clash(ivs, st', u, w) ==> Clash(ivs, st, u, w);
  }

  // Spilling the newcomer

  lemma SelfSpillKeeps(ivs: seq<Interval>, pools: Pools, st: State, done: set<nat>, cur: int, v: nat)
    requires pools.Valid() && Sound(ivs, pools, st, done, cur) && Apart(ivs, st, done)
    requires Arrives(ivs, st, done, cur, v)
    ensures Sound(ivs, pools, SelfSpill(st, v), done + {v}, cur)
    ensures Apart(ivs, SelfSpill(st, v), done + {v})
  {
    var st' := SelfSpill(st, v);
    assert forall u, w :: u in done && w in done && u != w && Clash(ivs, st', u, w) ==> Clash(ivs, st, u, w);
  }

  lemma SelfSpillPooled(ivs: seq<Interval>, pool: set<int>, st: State, v: nat, f: File)
    requires Typed(ivs, st) && v < |ivs| && v !in st.active && Pooled(ivs, pool, st, f)
    ensures Typed(ivs, SelfSpill(st, v)) && Pooled(ivs, pool, SelfSpill(st, v), f)
  {
    SameHoldings(ivs, pool, st, SelfSpill(st, v), f);
  }

  // ---- Optimality of one step ----

  ghost function ActiveOf(ivs: seq<Interval>, st: State, f: File): set<nat>
    requires Typed(ivs, st)
  {
    set v | v in st.active && ivs[v].file == f
  }

  lemma {:induction false} CoverSize(pool: set<int>, phys: seq<int>, a: set<nat>)
    requires forall v :: v in a ==> v < |phys|
    requires forall r :: r in pool ==> exists v :: v in a && phys[v] == r
    ensures |pool| <= |a|
    decreases pool
  {
    if pool != {} {
      var r := FiniteSets.Pick(pool);
      var v :| v in a && phys[v] == r;
      forall q | q in pool - {r}
        ensures exists u :: u in a - {v} && phys[u] == q
      {
        var u :| u in a && phys[u] == q;
        assert u in a - {v};
      }
      CoverSize(pool - {r}, phys, a - {v});
    }
  }

  /** With the stack empty every register of the pool is held by an active interval, and those
      are the pending ones. */
  lemma FullPool(ivs: seq<Interval>, pools: Pools, st: State, done: set<nat>, cur: int, f: File)
    requires Partition(ivs, pools, st) && Sound(ivs, pools, st, done, cur) && st.Free(f) == []
    requires forall u :: u in st.active ==> ivs[u].end >= cur
    ensures Pending(ivs, Kept(ivs, st, done, f), cur) == ActiveOf(ivs, st, f)
    ensures |ActiveOf(ivs, st, f)| >= |pools.Of(f)|
  {
    var a := ActiveOf(ivs, st, f);
    forall r | r in pools.Of(f)
      ensures exists v :: v in a && st.phys[v] == r
    {
      assert Held(ivs, st, f, r);
      var v :| v in st.active && ivs[v].file == f && st.phys[v] == r;
      assert v in a;
    }
    CoverSize(pools.Of(f), st.phys, a);
  }

  /** A step that leaves the flags of file f alone keeps that file's optimality. */
  lemma OtherFileBest(ivs: seq<Interval>, pools: Pools, st: State, st': State, done: set<nat>, cur: int, v: nat,
      f: File)
    requires Indices(ivs, done) && |st.spilled| == |st'.spilled| == |ivs| && v < |ivs| && ivs[v].file != f
    requires forall u :: u in done && ivs[u].file == f ==> st'.spilled[u] == st.spilled[u]
    requires Best(ivs, pools, st, done, cur, f)
    ensures Best(ivs, pools, st', done + {v}, cur, f)
  {
    hide Dominates;
    assert Seen(ivs, done + {v}, f) == Seen(ivs, done, f);
    assert Kept(ivs, st', done + {v}, f) == Kept(ivs, st, done, f);
  }

  lemma TakeBest(ivs: seq<Interval>, pools: Pools, st: State, done: set<nat>, cur: int, v: nat)
    requires Indices(ivs, done) && |st.phys| == |st.spilled| == |ivs|
    requires Arrives(ivs, st, done, cur, v) && st.Free(ivs[v].file) != []
    requires Best(ivs, pools, st, done, cur, ivs[v].file)
    ensures Best(ivs, pools, Take(ivs, st, v), done + {v}, cur, ivs[v].file)
  {
    hide Dominates;
    var f := ivs[v].file;
    var seen, kept := Seen(ivs, done, f), Kept(ivs, st, done, f);
    TakeDominates(ivs, |pools.Of(f)|, seen, kept, cur, v);
    assert Seen(ivs, done + {v}, f) == seen + {v};
    assert Kept(ivs, Take(ivs, st, v), done + {v}, f) == kept + {v};
  }

  lemma EvictBest(ivs: seq<Interval>, pools: Pools, st: State, done: set<nat>, cur: int, v: nat, k: nat)
    requires Partition(ivs, pools, st) && Sound(ivs, pools, st, done, cur)
    requires Arrives(ivs, st, done, cur, v) && st.Free(ivs[v].file) == []
    requires k < |st.active| && ivs[st.active[k]].file == ivs[v].file && ivs[st.active[k]].end > ivs[v].end
    requires forall u :: u in ActiveOf(ivs, st, ivs[v].file) ==> ivs[u].end <= ivs[st.active[k]].end
    requires Best(ivs, pools, st, done, cur, ivs[v].file)
    ensures Best(ivs, pools, Evict(st, v, k), done + {v}, cur, ivs[v].file)
  {
    hide Dominates, Pooled;
    var f, far := ivs[v].file, st.active[k];
    var seen, kept := Seen(ivs, done, f), Kept(ivs, st, done, f);
    assert far in st.active;
    FullPool(ivs, pools, st, done, cur, f);
    EvictDominates(ivs, |pools.Of(f)|, seen, kept, cur, v, far);
    assert Seen(ivs, done + {v}, f) == seen + {v};
    assert Kept(ivs, Evict(st, v, k), done + {v}, f) == kept + {v} - {far};
  }

  lemma SelfSpillBest(ivs: seq<Interval>, pools: Pools, st: State, done: set<nat>, cur: int, v: nat)
    requires Partition(ivs, pools, st) && Sound(ivs, pools, st, done, cur)
    requires Arrives(ivs, st, done, cur, v) && st.Free(ivs[v].file) == []
    requires forall u :: u in ActiveOf(ivs, st, ivs[v].file) ==> ivs[u].end <= ivs[v].end
    requires Best(ivs, pools, st, done, cur, ivs[v].file)
    ensures Best(ivs, pools, SelfSpill(st, v), done + {v}, cur, ivs[v].file)
  {
    hide Dominates, Pooled;
    var f := ivs[v].file;
    var seen, kept := Seen(ivs, done, f), Kept(ivs, st, done, f);
    FullPool(ivs, pools, st, done, cur, f);
    SelfSpillDominates(ivs, |pools.Of(f)|, seen, kept, cur, v);
    assert Seen(ivs, done + {v}, f) == seen + {v};
    assert Kept(ivs, SelfSpill(st, v), done + {v}, f) == kept;
  }

  // ---- One step keeps everything ----

  function Other(f: File): File {
    if f.Scalar? then Vector else Scalar
  }

  lemma TakeGood(ivs: seq<Interval>, pools: Pools, st: State, done: set<nat>, cur: int, v: nat)
    requires Good(ivs, pools, st, done, cur) && Arrives(ivs, st, done, cur, v) && st.Free(ivs[v].file) != []
    ensures Good(ivs, pools, Take(ivs, st, v), done + {v}, cur)
  {
    hide Pooled, Dominates, Apart;
    assert v !in st.active;
    TakePartition(ivs, pools, st, v);
    TakeSound(ivs, pools, st, done, cur, v);
    TakeApart(ivs, pools, st, done, cur, v);
    TakeBest(ivs, pools, st, done, cur, v);
    OtherFileBest(ivs, pools, st, Take(ivs, st, v), done, cur, v, Other(ivs[v].file));
  }

  lemma EvictGood(ivs: seq<Interval>, pools: Pools, st: State, done: set<nat>, cur: int, v: nat, k: nat)
    requires Good(ivs, pools, st, done, cur) && Arrives(ivs, st, done, cur, v) && st.Free(ivs[v].file) == []
    requires k < |st.active| && ivs[st.active[k]].file == ivs[v].file && ivs[st.active[k]].end > ivs[v].end
    requires forall u :: u in ActiveOf(ivs, st, ivs[v].file) ==> ivs[u].end <= ivs[st.active[k]].end
    ensures Good(ivs, pools, Evict(st, v, k), done + {v}, cur)
  {
    hide Pooled, Dominates, Apart;
    assert v !in st.active;
    EvictPartition(ivs, pools, st, v, k);
    EvictSound(ivs, pools, st, done, cur, v, k);
    EvictApart(ivs, pools, st, done, cur, v, k);
    EvictBest(ivs, pools, st, done, cur, v, k);
    OtherFileBest(ivs, pools, st, Evict(st, v, k), done, cur, v, Other(ivs[v].file));
  }

  lemma SelfSpillGood(ivs: seq<Interval>, pools: Pools, st: State, done: set<nat>, cur: int, v: nat)
    requires Good(ivs, pools, st, done, cur) && Arrives(ivs, st, done, cur, v) && st.Free(ivs[v].file) == []
    requires forall u :: u in ActiveOf(ivs, st, ivs[v].file) ==> ivs[u].end <= ivs[v].end
    ensures Good(ivs, pools, SelfSpill(st, v), done + {v}, cur)
  {
    hide Pooled, Dominates, Apart;
    assert v !in st.active;
    SelfSpillKeeps(ivs, pools, st, done, cur, v);
    SelfSpillPooled(ivs, pools.scalar, st, v, Scalar);
    SelfSpillPooled(ivs, pools.vector, st, v, Vector);
    SelfSpillBest(ivs, pools, st, done, cur, v);
    OtherFileBest(ivs, pools, st, SelfSpill(st, v), done, cur, v, Other(ivs[v].file));
  }

  lemma AssignGood(ivs: seq<Interval>, pools: Pools, st: State, done: set<nat>, cur: int, v: nat)
    requires Good(ivs, pools, st, done, cur) && Arrives(ivs, st, done, cur, v)
    ensures Good(ivs, pools, Assign(ivs, st, v), done + {v}, cur)
  {
    assert Typed(ivs, st);
    hide Good, Take, Evict, SelfSpill;
    var f := ivs[v].file;
    if st.Free(f) != [] {
      TakeGood(ivs, pools, st, done, cur, v);
    } else {
      FarthestIsMax(ivs, st.active, f, |st.active|);
      var (best, k) := Farthest(ivs, st.active, f, |st.active|);
      forall u | u in ActiveOf(ivs, st, f)
        ensures ivs[u].end <= best
      {
        var i :| 0 <= i < |st.active| && st.active[i] == u;
      }
      if best > ivs[v].end && |st.active| > 0 {
        EvictGood(ivs, pools, st, done, cur, v, k);
      } else {
        SelfSpillGood(ivs, pools, st, done, cur, v);
      }
    }
  }

  // ---- Reading the result ----

  lemma {:induction false} InjectSize(a: set<nat>, phys: seq<int>, pool: set<int>)
    requires forall v :: v in a ==> v < |phys| && phys[v] in pool
    requires forall u, v :: u in a && v in a && u != v ==> phys[u] != phys[v]
    ensures |a| <= |pool|
    decreases a
  {
    if a != {} {
      var v := FiniteSets.Pick(a);
      InjectSize(a - {v}, phys, pool - {phys[v]});
    }
  }

  /** The intervals left in registers never need more than the pool at once. */
  lemma KeptFits(ivs: seq<Interval>, pools: Pools, st: State, done: set<nat>, cur: int, f: File)
    requires Good(ivs, pools, st, done, cur)
    ensures Fits(ivs, |pools.Of(f)|, Kept(ivs, st, done, f))
  {
    hide Pooled, Dominates;
    var kept := Kept(ivs, st, done, f);
    forall p: int
      ensures |LiveAt(ivs, kept, p)| <= |pools.Of(f)|
    {
      var live := LiveAt(ivs, kept, p);
      forall u, v | u in live && v in live && u != v
        ensures st.phys[u] != st.phys[v]
      {
        assert Clash(ivs, st, u, v);
      }
      InjectSize(live, st.phys, pools.Of(f));
    }
  }

  /** No set of same-file intervals that fits the pool is larger than the set left unspilled. */
  lemma KeptIsLargest(ivs: seq<Interval>, pools: Pools, st: State, done: set<nat>, cur: int, f: File, s: set<nat>)
    requires Good(ivs, pools, st, done, cur)
    requires s <= Seen(ivs, done, f) && Fits(ivs, |pools.Of(f)|, s)
    ensures |s| <= |Kept(ivs, st, done, f)|
  {
    DominatingIsLargest(ivs, |pools.Of(f)|, Seen(ivs, done, f), Kept(ivs, st, done, f), cur, s);
  }

  /** Pressure within the pool means no spill, and a spill means the pressure is above it. */
  lemma SpillIffPressure(ivs: seq<Interval>, pools: Pools, st: State, done: set<nat>, cur: int, f: File)
    requires Good(ivs, pools, st, done, cur)
    ensures Fits(ivs, |pools.Of(f)|, Seen(ivs, done, f)) <==> forall v :: v in Seen(ivs, done, f) ==> !st.spilled[v]
  {
    var seen, kept := Seen(ivs, done, f), Kept(ivs, st, done, f);
    if Fits(ivs, |pools.Of(f)|, seen) {
      KeptIsLargest(ivs, pools, st, done, cur, f, seen);
      EqualBySize(kept, seen);
    }
    if forall v :: v in seen ==> !st.spilled[v] {
      assert kept == seen;
      KeptFits(ivs, pools, st, done, cur, f);
    }
  }

  lemma EqualBySize<T>(a: set<T>, b: set<T>)
    requires a <= b && |b| <= |a|
    ensures a == b
  {
    assert b == a + (b - a);
  }

  // ---- The allocator ----

  datatype Spill = Spill(vreg: nat, off: int)

  /** The byte offset of the i-th slot, as a 16-bit field holds it. */
  function SlotOffset(scratch: int, i: int): int {
    (scratch + i * 4) % 0x1_0000
  }

  /** The slots are distinct even when the field wraps. */
  lemma SlotsDistinct(scratch: int, i: int, j: int)
    requires 0 <= i < j < MAX_SPILL
    ensures SlotOffset(scratch, i) != SlotOffset(scratch, j)
  {
  }

  ghost predicate HasSlot(spills: seq<Spill>, v: nat) {
    exists i :: 0 <= i < |spills| && spills[i].vreg == v
  }

  /** The vregs spilled so far, in the order they were given slots: each has one of its own, and all
      have one until slots run out at 512. */
  ghost predicate SlotsGood(spilled: seq<bool>, spills: seq<Spill>, scratch: int, count: nat) {
    && |spills| == (if count < MAX_SPILL then count else MAX_SPILL)
    && (forall i :: 0 <= i < |spills| ==>
          && spills[i].vreg < |spilled| && spilled[spills[i].vreg]
          && spills[i].off == SlotOffset(scratch, i))
    && (forall i, j :: 0 <= i < j < |spills| ==> spills[i].vreg != spills[j].vreg)
    && (count <= MAX_SPILL ==> forall v: nat :: v < |spilled| && spilled[v] ==> HasSlot(spills, v))
  }

  ghost predicate Sorted(ivs: seq<Interval>, order: seq<nat>) {
    && (forall i :: 0 <= i < |order| ==> order[i] < |ivs| && ivs[order[i]].start <= ivs[order[i]].end)
    && (forall i, j :: 0 <= i < j < |order| ==> order[i] != order[j] && ivs[order[i]].start <= ivs[order[j]].start)
  }

  ghost function SpilledSet(spilled: seq<bool>, done: set<nat>): set<nat> {
    set v | v in done && v < |spilled| && spilled[v]
  }

  ghost function SpilledCount(spilled: seq<bool>, done: set<nat>): nat {
    |SpilledSet(spilled, done)|
  }

  /** The vreg a step spills, or -1. */
  function Victim(ivs: seq<Interval>, st: State, v: nat): int
    requires Typed(ivs, st) && v < |ivs|
  {
    if st.Free(ivs[v].file) != [] then -1
    else
      var (best, k) := Farthest(ivs, st.active, ivs[v].file, |st.active|);
      if best > ivs[v].end && |st.active| > 0 then
        FarthestIsMax(ivs, st.active, ivs[v].file, |st.active|);
        st.active[k]
      else v
  }

  function Recorded(spills: seq<Spill>, u: int, scratch: nat): seq<Spill> {
    if u >= 0 && |spills| < MAX_SPILL then spills + [Spill(u, SlotOffset(scratch, |spills|))] else spills
  }

  /** A step sets the flag of its victim and no other. */
  lemma AssignFlags(ivs: seq<Interval>, st: State, v: nat)
    requires Typed(ivs, st) && v < |ivs|
    ensures var u := Victim(ivs, st, v);
            && (u < 0 || u == v || u in st.active)
            && Assign(ivs, st, v).spilled == if u < 0 then st.spilled else st.spilled[u := true]
  {
    FarthestIsMax(ivs, st.active, ivs[v].file, |st.active|);
  }

  lemma OneMoreSpilled(spilled: seq<bool>, done: set<nat>, v: nat, u: nat)
    requires u < |spilled| && !spilled[u] && u in done + {v}
    requires v < |spilled| && !spilled[v]
    ensures SpilledCount(spilled[u := true], done + {v}) == SpilledCount(spilled, done) + 1
  {
    assert SpilledSet(spilled[u := true], done + {v}) == SpilledSet(spilled, done) + {u};
  }

  lemma SlotsAppend(spilled: seq<bool>, count: nat, u: nat, spills: seq<Spill>, scratch: nat)
    requires u < |spilled| && !spilled[u] && SlotsGood(spilled, spills, scratch, count)
    ensures SlotsGood(spilled[u := true], Recorded(spills, u, scratch), scratch, count + 1)
  {
    hide SlotOffset;
    var spills' := Recorded(spills, u, scratch);
    if count < MAX_SPILL {
      forall v: nat | v < |spilled| && (spilled[v] || v == u)
        ensures HasSlot(spills', v)
      {
        if v == u {
          assert spills'[|spills|].vreg == u;
        } else {
          assert HasSlot(spills, v);
          var i :| 0 <= i < |spills| && spills[i].vreg == v;
          assert spills'[i] == spills[i];
        }
      }
    }
  }

  /** The spills of the run so far each have their own slot, and every spilled vreg has one as
      long as there were at most 512. */
  lemma SlotsStep(ivs: seq<Interval>, pools: Pools, st: State, done: set<nat>, cur: int, v: nat,
                  spills: seq<Spill>, scratch: nat)
    requires Good(ivs, pools, st, done, cur) && Arrives(ivs, st, done, cur, v)
    requires SlotsGood(st.spilled, spills, scratch, SpilledCount(st.spilled, done))
    ensures var st' := Assign(ivs, st, v);
            SlotsGood(st'.spilled, Recorded(spills, Victim(ivs, st, v), scratch), scratch,
                      SpilledCount(st'.spilled, done + {v}))
  {
    hide Pooled, Dominates, Apart, Assign, Victim, SlotsGood, SpilledCount;
    AssignFlags(ivs, st, v);
    var u := Victim(ivs, st, v);
    if u < 0 {
      SameSpills(st.spilled, done, v);
    } else {
      OneMoreSpilled(st.spilled, done, v, u);
      SlotsAppend(st.spilled, SpilledCount(st.spilled, done), u, spills, scratch);
    }
  }

  lemma SameSpills(spilled: seq<bool>, done: set<nat>, v: nat)
    requires v < |spilled| && !spilled[v]
    ensures SpilledCount(spilled, done + {v}) == SpilledCount(spilled, done)
  {
    assert SpilledSet(spilled, done + {v}) == SpilledSet(spilled, done);
  }

  lemma StartBest(ivs: seq<Interval>, pools: Pools, st: State, f: File)
    requires |st.spilled| == |ivs|
    ensures Best(ivs, pools, st, {}, 0, f)
  {
    forall s: set<nat>, t: int | s <= Seen(ivs, {}, f) && Fits(ivs, |pools.Of(f)|, s) && t >= 0
      ensures |Ended(ivs, s, t)| <= |Ended(ivs, Kept(ivs, st, {}, f), t)|
    {
      assert s == {};
      assert Ended(ivs, s, t) == {};
    }
  }

  lemma StartGood(ivs: seq<Interval>, pools: Pools, st: State)
    requires pools.Valid() && |st.phys| == |st.spilled| == |ivs| && st.active == []
    requires forall r :: r in pools.scalar <==> r in st.freeS
    requires forall r :: r in pools.vector <==> r in st.freeV
    requires forall i, j :: 0 <= i < j < |st.freeS| ==> st.freeS[i] != st.freeS[j]
    requires forall i, j :: 0 <= i < j < |st.freeV| ==> st.freeV[i] != st.freeV[j]
    ensures Good(ivs, pools, st, {}, 0)
  {
    StartBest(ivs, pools, st, Scalar);
    StartBest(ivs, pools, st, Vector);
  }

  /** One whole iteration: expire, then assign. */
  lemma StepGood(ivs: seq<Interval>, pools: Pools, st: State, done: set<nat>, cur: int, v: nat)
    requires Good(ivs, pools, st, done, cur) && v < |ivs| && v !in done && !st.spilled[v]
    requires cur <= ivs[v].start <= ivs[v].end
    ensures var mid := Expire(ivs, st, 0, ivs[v].start);
            && Good(ivs, pools, mid, done, ivs[v].start)
            && Arrives(ivs, mid, done, ivs[v].start, v)
            && mid.spilled == st.spilled
            && Good(ivs, pools, Assign(ivs, mid, v), done + {v}, ivs[v].start)
  {
    assert Partition(ivs, pools, st) && pools.Valid();
    ExpireGood(ivs, pools, st, done, cur, ivs[v].start);
    ExpireKeeps(ivs, pools, st, 0, ivs[v].start);
    var mid := Expire(ivs, st, 0, ivs[v].start);
    assert Typed(ivs, mid);
    AssignGood(ivs, pools, mid, done, ivs[v].start, v);
  }

  lemma NothingSpilled(spilled: seq<bool>, scratch: nat)
    requires forall v :: 0 <= v < |spilled| ==> !spilled[v]
    ensures SlotsGood(spilled, [], scratch, SpilledCount(spilled, {}))
  {
    assert SpilledSet(spilled, {}) == {};
  }

  ghost function Handled(order: seq<nat>, n: nat): set<nat>
    requires n <= |order|
  {
    set i | 0 <= i < n :: order[i]
  }

  lemma NextHandled(order: seq<nat>, i: nat)
    requires i < |order| && forall j, k :: 0 <= j < k < |order| ==> order[j] != order[k]
    ensures Handled(order, i + 1) == Handled(order, i) + {order[i]}
    ensures forall j :: i <= j < |order| ==> order[j] !in Handled(order, i)
  {
  }

  lemma GoodTyped(ivs: seq<Interval>, pools: Pools, st: State, done: set<nat>, cur: int)
    requires Good(ivs, pools, st, done, cur)
    ensures Typed(ivs, st) && |st.spilled| == |ivs|
    ensures forall u :: u in st.active ==> u in done
  {
  }

  class Allocator {
    const ivs: seq<Interval>
    const scratch: nat
    var phys: seq<int>
    var spilled: seq<bool>
    var freeS: seq<int>
    var freeV: seq<int>
    var active: seq<nat>
    var maxS: int
    var maxV: int
    var spills: seq<Spill>

    ghost function View(): (st: State)
      reads this
    {
      State(phys, spilled, freeS, freeV, active, maxS, maxV)
    }

    ghost predicate Clear()
      reads this
    {
      && |phys| == |spilled| == |ivs|
      && active == [] && spills == [] && maxS == 0 && maxV == 0
      && (forall v :: 0 <= v < |ivs| ==> !spilled[v])
    }

    /** Fill the free stacks: scalar registers from the first allocatable one to s101 without the
        two relays, vector registers below v250, or below v208 when the matrix window is used. */
    constructor (ivs: seq<Interval>, scratch: nat, isKernel: bool, firstAlloc: nat, usesMfma: bool)
      ensures this.ivs == ivs && this.scratch == scratch
      ensures Clear()
      ensures var lo := if !isKernel then 0 else if firstAlloc < KERN_MIN_RESERVED then KERN_MIN_RESERVED
                        else firstAlloc;
              forall r: int :: r in freeS <==> lo <= r < MAX_SGPRS && r != RELAY_S && r != RELAY_S2
      ensures forall r: int :: r in freeV <==> 0 <= r < (if usesMfma then MFMA_LO else VGPR_CEIL)
      ensures forall i, j :: 0 <= i < j < |freeS| ==> freeS[i] != freeS[j]
      ensures forall i, j :: 0 <= i < j < |freeV| ==> freeV[i] != freeV[j]
    {
      this.ivs, this.scratch := ivs, scratch;
      phys := seq(|ivs|, _ => NONE);
      spilled := seq(|ivs|, _ => false);
      active, spills, maxS, maxV := [], [], 0, 0;
      var sgprs: seq<int>, vgprs: seq<int> := [], [];
      var lo := if isKernel then firstAlloc else 0;
      if lo < KERN_MIN_RESERVED && isKernel {
        lo := KERN_MIN_RESERVED;
      }
      var r := MAX_SGPRS;
      while r > lo
        invariant r <= MAX_SGPRS && (if lo <= MAX_SGPRS then lo <= r else r == MAX_SGPRS)
        invariant forall q: int :: q in sgprs <==> r <= q < MAX_SGPRS && q != RELAY_S && q != RELAY_S2
        invariant forall i :: 0 <= i < |sgprs| ==> sgprs[i] >= r
        invariant forall i, j :: 0 <= i < j < |sgprs| ==> sgprs[i] > sgprs[j]
      {
        r := r - 1;
        if r != RELAY_S && r != RELAY_S2 {
          sgprs := sgprs + [r];
        }
      }
      assert forall q: int :: q in sgprs <==> lo <= q < MAX_SGPRS && q != RELAY_S && q != RELAY_S2;
      r := if usesMfma then MFMA_LO else VGPR_CEIL;
      var top := r;
      while r > 0
        invariant 0 <= r <= top
        invariant forall q: int :: q in vgprs <==> r <= q < top
        invariant forall i :: 0 <= i < |vgprs| ==> vgprs[i] >= r
        invariant forall i, j :: 0 <= i < j < |vgprs| ==> vgprs[i] > vgprs[j]
      {
        r := r - 1;
        vgprs := vgprs + [r];
      }
      freeS, freeV := sgprs, vgprs;
    }

    /** expire_old: compact the active list in place, freeing what ended before `point`. */
    method ExpireOld(point: nat)
      requires Typed(ivs, View())
      modifies this`active, this`freeS, this`freeV
      ensures View() == Expire(ivs, old(View()), 0, point)
    {
      ghost var st, end := View(), Expire(ivs, View(), 0, point);
      var kept: seq<nat>, was, regs, sgprs, vgprs := [], active, phys, freeS, freeV;
      assert Compacting(ivs, st, kept, was, 0, point, end);
      hide Compacting, Expire, Typed;
      var i := 0;
      while i < |was|
        invariant 0 <= i <= |was|
        invariant st == State(regs, spilled, sgprs, vgprs, st.active, maxS, maxV)
        invariant Compacting(ivs, st, kept, was, i, point, end)
        modifies {}
      {
        var v := was[i];
        ghost var next := CompactingStep(ivs, st, kept, was, i, point, end);
        if ivs[v].end >= point {
          kept := kept + [v];
        } else {
          var r := regs[v];
          st := Freed(ivs, st, v).(active := next);
          if ivs[v].file.Scalar? && r < MAX_SGPRS {
            sgprs := sgprs + [r];
          } else if r < MAX_VGPRS {
            vgprs := vgprs + [r];
          }
        }
        i := i + 1;
      }
      CompactingDone(ivs, st, kept, was, point, end);
      active, freeS, freeV := kept, sgprs, vgprs;
    }

    /** The search for the active interval of file f with the farthest end. */
    method FindFarthest(f: File) returns (farthest: int, idx: nat)
      requires Typed(ivs, View())
      ensures (farthest, idx) == Farthest(ivs, active, f, |active|)
    {
      farthest, idx := 0, 0;
      for a := 0 to |active|
        invariant (farthest, idx) == Farthest(ivs, active, f, a)
      {
        var iv := ivs[active[a]];
        if iv.file == f && iv.end > farthest {
          farthest, idx := iv.end, a;
        }
      }
    }

    /** The body of the scan after expiry: a free register, the farthest interval's register, or
        the spill area. */
    method AssignOne(v: nat)
      requires Typed(ivs, View()) && v < |ivs|
      modifies this
      ensures View() == Assign(ivs, old(View()), v)
      ensures spills == Recorded(old(spills), Victim(ivs, old(View()), v), scratch)
    {
      var r := NONE;
      if ivs[v].file.Scalar? {
        if |freeS| > 0 {
          r := freeS[|freeS| - 1];
          freeS := freeS[..|freeS| - 1];
          if r >= maxS {
            maxS := r + 1;
          }
          phys := phys[v := r];
          active := active + [v];
          return;
        }
      } else if |freeV| > 0 {
        r := freeV[|freeV| - 1];
        freeV := freeV[..|freeV| - 1];
        if r >= maxV {
          maxV := r + 1;
        }
        phys := phys[v := r];
        active := active + [v];
        return;
      }
      EvictOrSpill(v);
    }

    /** No register is free: take the one of the farthest interval, or leave v to the spill area. */
    method EvictOrSpill(v: nat)
      requires Typed(ivs, View()) && v < |ivs|
      requires if ivs[v].file.Scalar? then |freeS| == 0 else |freeV| == 0
      modifies this`spilled, this`phys, this`active, this`spills
      ensures View() == Assign(ivs, old(View()), v)
      ensures spills == Recorded(old(spills), Victim(ivs, old(View()), v), scratch)
    {
      var farthest, idx := FindFarthest(ivs[v].file);
      FarthestIsMax(ivs, active, ivs[v].file, |active|);
      if farthest > ivs[v].end && |active| > 0 {
        var far := active[idx];
        var r := phys[far];
        spilled := spilled[far := true];
        phys := phys[far := NONE];
        RecordSpill(far);
        var last := |active| - 1;
        active := active[idx := active[last]][..last];
        phys := phys[v := r];
        active := active + [v];
      } else {
        spilled := spilled[v := true];
        RecordSpill(v);
        phys := phys[v := NONE];
      }
    }

    /** Give vreg u the next scratch slot, if one is left. */
    method RecordSpill(u: nat)
      modifies this`spills
      ensures spills == Recorded(old(spills), u, scratch)
    {
      if |spills| < MAX_SPILL {
        spills := spills + [Spill(u, (scratch + |spills| * 4) % 0x1_0000)];
      }
    }

    /** The scan over the intervals in order of start. */
    method Scan(order: seq<nat>, ghost pools: Pools) returns (ghost cur: int)
      requires Clear() && Sorted(ivs, order) && pools.Valid()
      requires forall r :: r in pools.scalar <==> r in freeS
      requires forall r :: r in pools.vector <==> r in freeV
      requires forall i, j :: 0 <= i < j < |freeS| ==> freeS[i] != freeS[j]
      requires forall i, j :: 0 <= i < j < |freeV| ==> freeV[i] != freeV[j]
      modifies this
      ensures Good(ivs, pools, View(), Handled(order, |order|), cur)
      ensures SlotsGood(spilled, spills, scratch, SpilledCount(spilled, Handled(order, |order|)))
    {
      StartGood(ivs, pools, View());
      assert Handled(order, 0) == {};
      cur := 0;
      hide Good, SlotsGood, Assign, Expire;
      NothingSpilled(spilled, scratch);
      var i := 0;
      while i < |order|
        invariant 0 <= i <= |order|
        invariant Good(ivs, pools, View(), Handled(order, i), cur)
        invariant SlotsGood(spilled, spills, scratch, SpilledCount(spilled, Handled(order, i)))
        invariant i < |order| ==> cur <= ivs[order[i]].start
        invariant |spilled| == |ivs| && forall j :: i <= j < |order| ==> !spilled[order[j]]
      {
        i := OneInterval(order, i, pools, cur);
        cur := ivs[order[i - 1]].start;
      }
    }

    method OneInterval(order: seq<nat>, i: nat, ghost pools: Pools, ghost cur: int) returns (next: nat)
      requires i < |order| && Sorted(ivs, order) && cur <= ivs[order[i]].start
      requires Good(ivs, pools, View(), Handled(order, i), cur)
      requires SlotsGood(spilled, spills, scratch, SpilledCount(spilled, Handled(order, i)))
      requires |spilled| == |ivs| && forall j :: i <= j < |order| ==> !spilled[order[j]]
      modifies this
      ensures next == i + 1
      ensures Good(ivs, pools, View(), Handled(order, i + 1), ivs[order[i]].start)
      ensures SlotsGood(spilled, spills, scratch, SpilledCount(spilled, Handled(order, i + 1)))
      ensures |spilled| == |ivs| && forall j :: i + 1 <= j < |order| ==> !spilled[order[j]]
    {
      var v := order[i];
      ghost var done := Handled(order, i);
      NextHandled(order, i);
      GoodTyped(ivs, pools, View(), done, cur);
      hide *;
      StepGood(ivs, pools, View(), done, cur, v);
      ExpireOld(ivs[v].start);
      ghost var mid := View();
      SlotsStep(ivs, pools, mid, done, ivs[v].start, v, spills, scratch);
      GoodTyped(ivs, pools, mid, done, ivs[v].start);
      AssignOne(v);
      AssignFlags(ivs, mid, v);
      next := i + 1;
    }
  }
}
