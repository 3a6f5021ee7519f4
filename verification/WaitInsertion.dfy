/** Step 4 of schedule_block: waits go back in, just before the first reader of each load. */
module WaitInsertion {

  const VMEM: nat := 0
  const SMEM: nat := 1
  const DS: nat := 2
  const MAX_SMEM_FLY: nat := 10

  /** A scheduled instruction.  defs are the keys a load brings, afterStores marks the loads that must
      not overtake stores, vmemStore the stores themselves. */
  datatype Item = Item(sources: seq<nat>, load: bool, kind: nat, defs: seq<nat>, barrier: bool, term: bool,
      vmemStore: bool, afterStores: bool)

  type Items = seq<Item>

  ghost predicate ItemsOk(b: Items) {
    forall p :: 0 <= p < |b| ==> b[p].kind <= DS && (b[p].term ==> !b[p].load && !b[p].barrier && !b[p].afterStores)
  }

  datatype Out = Wait(kind: nat) | Do(at: nat)

  // ---- What the output must show ----

  /** A wait of this kind follows instruction p. */
  ghost predicate After(out: seq<Out>, p: nat, kind: nat) {
    exists a, w :: 0 <= a < w < |out| && out[a] == Do(p) && out[w] == Wait(kind)
  }

  /** A wait of this kind stands between instructions p and r. */
  ghost predicate Between(out: seq<Out>, p: nat, kind: nat, r: nat) {
    exists a, w, c :: 0 <= a < w < c < |out| && out[a] == Do(p) && out[w] == Wait(kind) && out[c] == Do(r)
  }

  ghost predicate IsScalarLoad(b: Items, x: Out) {
    x.Do? && x.at < |b| && b[x.at].load && b[x.at].kind == SMEM
  }

  /** Scalar loads issued since the last scalar wait. */
  ghost function InFlight(b: Items, out: seq<Out>): nat {
    if out == [] then 0
    else
      var n := |out| - 1;
      if out[n] == Wait(SMEM) then 0
      else if IsScalarLoad(b, out[n]) then InFlight(b, out[..n]) + 1
      else InFlight(b, out[..n])
  }

  ghost predicate NeverOver(b: Items, out: seq<Out>) {
    forall n :: 0 <= n <= |out| ==> InFlight(b, out[..n]) <= MAX_SMEM_FLY
  }

  /** The instructions of the output, without the waits. */
  ghost function Dos(out: seq<Out>): seq<nat> {
    if out == [] then []
    else
      var n := |out| - 1;
      if out[n].Do? then Dos(out[..n]) + [out[n].at] else Dos(out[..n])
  }

  function Upto(n: nat): (r: seq<nat>)
    ensures |r| == n
  {
    seq(n, i => i)
  }

  lemma AppendAfter(out: seq<Out>, x: Out, p: nat, kind: nat)
    ensures After(out, p, kind) ==> After(out + [x], p, kind)
    ensures After(out, p, kind) && x.Do? ==> Between(out + [x], p, kind, x.at)
  {
    if After(out, p, kind) {
      var a, w :| 0 <= a < w < |out| && out[a] == Do(p) && out[w] == Wait(kind);
      var o := out + [x];
      assert o[a] == Do(p) && o[w] == Wait(kind) && o[|out|] == x;
    }
  }

  lemma AppendWait(out: seq<Out>, p: nat, kind: nat)
    requires Do(p) in out
    ensures After(out + [Wait(kind)], p, kind)
  {
    var a :| 0 <= a < |out| && out[a] == Do(p);
    var o := out + [Wait(kind)];
    assert o[a] == Do(p) && o[|out|] == Wait(kind);
  }

  lemma AppendBetween(out: seq<Out>, x: Out, p: nat, kind: nat, r: nat)
    requires Between(out, p, kind, r)
    ensures Between(out + [x], p, kind, r)
  {
    var a, w, c :| 0 <= a < w < c < |out| && out[a] == Do(p) && out[w] == Wait(kind) && out[c] == Do(r);
    var o := out + [x];
    assert o[a] == Do(p) && o[w] == Wait(kind) && o[c] == Do(r);
  }

  lemma AppendFlight(b: Items, out: seq<Out>, x: Out)
    requires NeverOver(b, out) && InFlight(b, out + [x]) <= MAX_SMEM_FLY
    ensures NeverOver(b, out + [x])
  {
    var o := out + [x];
    forall n | 0 <= n <= |o|
      ensures InFlight(b, o[..n]) <= MAX_SMEM_FLY
    {
      if n <= |out| {
        assert o[..n] == out[..n];
      } else {
        assert o[..n] == o;
      }
    }
  }

  lemma FlightStep(b: Items, out: seq<Out>, x: Out)
    ensures InFlight(b, out + [x]) == if x == Wait(SMEM) then 0 else if IsScalarLoad(b, x) then InFlight(b, out) + 1
                                      else InFlight(b, out)
    ensures Dos(out + [x]) == if x.Do? then Dos(out) + [x.at] else Dos(out)
  {
    assert (out + [x])[..|out|] == out;
  }

  // ---- Blocks ----

  ghost predicate Brings(b: Items, p: nat, k: nat) {
    p < |b| && b[p].load && k in b[p].defs
  }

  ghost predicate Reads(b: Items, r: nat, k: nat) {
    r < |b| && k in b[r].sources
  }

  /** Each key is loaded at most once and not read before, or by, its load. */
  ghost predicate Tracked(b: Items) {
    && (forall p: nat, q: nat, k: nat :: Brings(b, p, k) && Brings(b, q, k) ==> p == q)
    && (forall p: nat, r: nat, k: nat :: Brings(b, p, k) && Reads(b, r, k) ==> p < r)
  }

  ghost predicate TermBefore(b: Items, i: nat) {
    exists p :: 0 <= p < i && p < |b| && b[p].term
  }

  /** Every read of a key that a vector memory load brought has its wait. */
  ghost predicate MetVector(b: Items, i: nat, out: seq<Out>) {
    forall p: nat, r: nat, k: nat :: p < r < i && Brings(b, p, k) && b[p].kind == VMEM && Reads(b, r, k) ==>
        Between(out, p, VMEM, r)
  }

  /** Every read of a loaded key has a wait of the load's kind. */
  ghost predicate Met(b: Items, i: nat, out: seq<Out>) {
    forall p: nat, r: nat, k: nat :: r < i && Brings(b, p, k) && Reads(b, r, k) ==> Between(out, p, b[p].kind, r)
  }

  ghost predicate Kept(b: Items, i: nat, out: seq<Out>) {
    && (forall u :: 0 <= u < |out| && out[u].Do? ==> out[u].at < i)
    && (forall p: nat :: p < i ==> Do(p) in out)
    && Dos(out) == Upto(i) && NeverOver(b, out) && MetVector(b, i, out)
    && (Tracked(b) ==> Met(b, i, out))
  }

  lemma MetAppend(b: Items, i: nat, out: seq<Out>, x: Out)
    ensures MetVector(b, i, out) ==> MetVector(b, i, out + [x])
    ensures Met(b, i, out) ==> Met(b, i, out + [x])
  {
    hide Between, Reads;
    var o := out + [x];
    forall p: nat, k: nat, r: nat | Between(out, p, k, r)
      ensures Between(o, p, k, r)
    {
      AppendBetween(out, x, p, k, r);
    }
  }

  lemma PlacedAppend(i: nat, out: seq<Out>, x: Out)
    requires forall p: nat :: p < i ==> Do(p) in out
    ensures forall p: nat :: p < i ==> Do(p) in out + [x]
    ensures x in out + [x]
  {
    var o := out + [x];
    assert o[|out|] == x;
    forall p: nat | p < i
      ensures Do(p) in o
    {
      assert Do(p) in out;
    }
  }

  lemma KeptWait(b: Items, i: nat, out: seq<Out>, kind: nat)
    requires i <= |b| && Kept(b, i, out)
    ensures Kept(b, i, out + [Wait(kind)])
  {
    hide NeverOver, Tracked, MetVector, Met;
    FlightStep(b, out, Wait(kind));
    FlightNow(b, out);
    AppendFlight(b, out, Wait(kind));
    PlacedAppend(i, out, Wait(kind));
    MetAppend(b, i, out, Wait(kind));
  }

  lemma FlightNow(b: Items, out: seq<Out>)
    requires NeverOver(b, out)
    ensures InFlight(b, out) <= MAX_SMEM_FLY
  {
    assert out[..|out|] == out;
  }

  lemma KeptDo(b: Items, i: nat, out: seq<Out>)
    requires i < |b| && Kept(b, i, out) && InFlight(b, out) < MAX_SMEM_FLY
    requires forall p: nat, k: nat :: p < i && Brings(b, p, k) && b[p].kind == VMEM && Reads(b, i, k) ==>
               After(out, p, VMEM)
    requires Tracked(b) ==> forall p: nat, k: nat :: Brings(b, p, k) && Reads(b, i, k) ==> After(out, p, b[p].kind)
    ensures Kept(b, i + 1, out + [Do(i)])
  {
    hide NeverOver, Tracked, MetVector, Met, After, Brings, Reads, InFlight, Dos;
    FlightStep(b, out, Do(i));
    AppendFlight(b, out, Do(i));
    assert Upto(i) + [i] == Upto(i + 1);
    PlacedAppend(i, out, Do(i));
    MetVectorNext(b, i, out);
    if Tracked(b) {
      MetNext(b, i, out);
    }
  }

  lemma MetVectorNext(b: Items, i: nat, out: seq<Out>)
    requires i < |b| && MetVector(b, i, out)
    requires forall p: nat, k: nat :: p < i && Brings(b, p, k) && b[p].kind == VMEM && Reads(b, i, k) ==>
               After(out, p, VMEM)
    ensures MetVector(b, i + 1, out + [Do(i)])
  {
    hide Between, Brings, Reads, After;
    MetAppend(b, i, out, Do(i));
    forall p: nat
      ensures After(out, p, VMEM) ==> Between(out + [Do(i)], p, VMEM, i)
    {
      AppendAfter(out, Do(i), p, VMEM);
    }
  }

  lemma MetNext(b: Items, i: nat, out: seq<Out>)
    requires i < |b| && Met(b, i, out)
    requires forall p: nat, k: nat :: Brings(b, p, k) && Reads(b, i, k) ==> After(out, p, b[p].kind)
    ensures Met(b, i + 1, out + [Do(i)])
  {
    hide Between, Reads, After;
    MetAppend(b, i, out, Do(i));
    forall p: nat, kind: nat
      ensures After(out, p, kind) ==> Between(out + [Do(i)], p, kind, i)
    {
      AppendAfter(out, Do(i), p, kind);
    }
  }

  // ---- Bookkeeping ----

  /** Loads marked as waited for come before position i and have their wait, or are about to. */
  ghost predicate Sound(b: Items, i: nat, waited: seq<bool>, needs: seq<bool>, out: seq<Out>) {
    |waited| == |b| && |needs| == 3
    && forall p: nat :: p < |b| && waited[p] ==>
        p < i && b[p].kind < 3 && (After(out, p, b[p].kind) || needs[b[p].kind])
  }

  /** A key brought by a vector load is pending or was waited for; only loaded keys are pending. */
  ghost predicate PendingOk(b: Items, i: nat, pending: set<nat>, out: seq<Out>) {
    && (forall p: nat, k: nat :: p < i && Brings(b, p, k) && b[p].kind == VMEM ==> k in pending || After(out, p, VMEM))
    && (forall k :: k in pending ==> exists p: nat :: Brings(b, p, k))
  }

  /** A load that must not overtake stores has a wait after every store before it. */
  ghost predicate StoresMet(b: Items, i: nat, out: seq<Out>) {
    forall p: nat, r: nat :: p < r < i && r < |b| && b[p].vmemStore && b[r].afterStores ==> Between(out, p, VMEM, r)
  }

  /** A barrier has a wait after every load before it. */
  ghost predicate BarriersMet(b: Items, i: nat, out: seq<Out>) {
    forall p: nat, r: nat :: p < r < i && r < |b| && b[p].load && b[r].barrier ==> Between(out, p, b[p].kind, r)
  }

  /** Both so far, and a store with no wait after it is remembered. */
  ghost predicate Fenced(b: Items, i: nat, hasStore: bool, out: seq<Out>) {
    && StoresMet(b, i, out) && (Tracked(b) ==> BarriersMet(b, i, out))
    && (forall p: nat :: p < i && p < |b| && b[p].vmemStore ==> hasStore || After(out, p, VMEM))
  }

  lemma FencedAppend(b: Items, i: nat, hasStore: bool, out: seq<Out>, x: Out)
    requires Fenced(b, i, hasStore, out)
    ensures Fenced(b, i, hasStore, out + [x])
  {
    hide Between, After, Tracked;
    forall p: nat, k: nat, r: nat | Between(out, p, k, r)
      ensures Between(out + [x], p, k, r)
    {
      AppendBetween(out, x, p, k, r);
    }
    forall p: nat, k: nat | After(out, p, k)
      ensures After(out + [x], p, k)
    {
      AppendAfter(out, x, p, k);
    }
  }

  lemma FencedWait(b: Items, i: nat, hasStore: bool, out: seq<Out>, kind: nat)
    requires i <= |b| && Fenced(b, i, hasStore, out) && Kept(b, i, out)
    ensures Fenced(b, i, hasStore && kind != VMEM, out + [Wait(kind)])
  {
    FencedAppend(b, i, hasStore, out, Wait(kind));
    hide Between, After, Tracked, Dos, NeverOver, MetVector, Met, StoresMet, BarriersMet;
    if kind == VMEM {
      forall p: nat | p < i
        ensures After(out + [Wait(kind)], p, VMEM)
      {
        AppendWait(out, p, VMEM);
      }
    }
  }

  lemma FencedDo(b: Items, i: nat, hasStore: bool, out: seq<Out>)
    requires i < |b| && Fenced(b, i, hasStore, out) && (b[i].afterStores ==> !hasStore)
    requires Tracked(b) && b[i].barrier ==> forall p: nat :: p < i && b[p].load ==> After(out, p, b[p].kind)
    ensures Fenced(b, i + 1, hasStore || b[i].vmemStore, out + [Do(i)])
  {
    FencedAppend(b, i, hasStore, out, Do(i));
    hide Between, After, Tracked;
    var o := out + [Do(i)];
    forall p: nat, r: nat | p < r < i + 1 && b[p].vmemStore && b[r].afterStores
      ensures Between(o, p, VMEM, r)
    {
      AppendAfter(out, Do(i), p, VMEM);
    }
    if Tracked(b) {
      forall p: nat, r: nat | p < r < i + 1 && b[p].load && b[r].barrier
        ensures Between(o, p, b[p].kind, r)
      {
        AppendAfter(out, Do(i), p, b[p].kind);
      }
    }
  }

  /** The loads before instruction i that are marked have their waits. */
  lemma BarrierReady(b: Items, i: nat, waited: seq<bool>, out: seq<Out>)
    requires i <= |b| == |waited| && Sound(b, i, waited, [false, false, false], out)
    requires forall p: nat :: p < i && b[p].load ==> waited[p]
    ensures forall p: nat :: p < i && b[p].load ==> After(out, p, b[p].kind)
  {
    hide After;
  }

  ghost predicate LoadMap(b: Items, upto: nat, vload: map<nat, nat>) {
    && (forall k :: k in vload ==> vload[k] < upto && Brings(b, vload[k], k))
    && (forall p: nat, k: nat :: p < upto && Brings(b, p, k) ==> k in vload && p <= vload[k])
  }

  /** Which load brings each key. */
  method MapLoads(b: Items) returns (vload: map<nat, nat>)
    ensures LoadMap(b, |b|, vload)
  {
    vload := map[];
    for i: nat := 0 to |b|
      invariant LoadMap(b, i, vload)
    {
      if b[i].load {
        ghost var was := vload;
        for d := 0 to |b[i].defs|
          invariant forall k :: k in vload <==> k in was || k in b[i].defs[..d]
          invariant forall k :: k in vload ==> vload[k] == if k in b[i].defs[..d] then i else was[k]
        {
          assert b[i].defs[..d + 1] == b[i].defs[..d] + [b[i].defs[d]];
          vload := vload[b[i].defs[d] := i];
        }
        assert b[i].defs[..|b[i].defs|] == b[i].defs;
      }
    }
  }

  // ---- What is outstanding, from the block alone ----

  /** The loads nobody has waited for, whether a store is out, and the scalar loads in flight. */
  datatype State = State(open: set<nat>, stored: bool, fly: nat)

  /** Terminators close the block, each key is loaded once and not read before. */
  ghost predicate Orderly(b: Items) {
    ItemsOk(b) && Tracked(b) && forall i, j :: 0 <= i < j < |b| && b[i].term ==> b[j].term
  }

  ghost predicate OpenOf(b: Items, st: State, p: nat, kind: nat) {
    p in st.open && p < |b| && b[p].kind == kind
  }

  /** Instruction i calls for a wait of this kind: for stores not to be overtaken, for one of its
      first u reads, or as a barrier for one of the first q instructions. */
  ghost predicate AsksFor(b: Items, st: State, i: nat, kind: nat, u: nat, q: nat)
    requires i < |b| && u <= |b[i].sources|
  {
    || (kind == VMEM && b[i].afterStores && st.stored)
    || (exists p: nat, v: nat :: v < u && OpenOf(b, st, p, kind) && Brings(b, p, b[i].sources[v]))
    || (b[i].barrier && exists p: nat :: p < q && OpenOf(b, st, p, kind))
  }

  ghost predicate Asks(b: Items, st: State, i: nat, kind: nat)
    requires i < |b|
  {
    AsksFor(b, st, i, kind, |b[i].sources|, i)
  }

  /** After a wait. */
  ghost function Dropped(b: Items, st: State, kind: nat): State {
    State((set p | p in st.open && p < |b| && b[p].kind != kind), st.stored && kind != VMEM,
            if kind == SMEM then 0 else st.fly)
  }

  /** After the waits of the first k kinds. */
  ghost function DroppedBelow(b: Items, st: State, needs: seq<bool>, k: nat): State
    requires k <= |needs|
  {
    if k == 0 then st
    else
      var before := DroppedBelow(b, st, needs, k - 1);
      if needs[k - 1] then Dropped(b, before, k - 1) else before
  }

  ghost function AllAsks(b: Items, st: State, i: nat): (needs: seq<bool>)
    requires i < |b|
    ensures |needs| == 3 && forall k :: 0 <= k < 3 ==> (needs[k] <==> Asks(b, st, i, k))
  {
    seq(3, k requires 0 <= k < 3 => Asks(b, st, i, k))
  }

  /** After the waits that instruction i calls for. */
  ghost function Settled(b: Items, st: State, i: nat): State
    requires i < |b|
  {
    DroppedBelow(b, st, AllAsks(b, st, i), 3)
  }

  /** After instruction i, before scalar loads are drained. */
  ghost function Noted(b: Items, st: State, i: nat): State
    requires i < |b|
  {
    State(if b[i].load then st.open + {i} else st.open, st.stored || b[i].vmemStore,
          if b[i].load && b[i].kind == SMEM then st.fly + 1 else st.fly)
  }

  /** Before instruction i. */
  ghost function At(b: Items, i: nat): State
    requires i <= |b|
  {
    if i == 0 then State({}, false, 0)
    else
      var st := Noted(b, Settled(b, At(b, i - 1), i - 1), i - 1);
      if b[i - 1].load && b[i - 1].kind == SMEM && st.fly >= MAX_SMEM_FLY then Dropped(b, st, SMEM) else st
  }

  /** A terminator has passed and load p was still open. */
  ghost predicate Missed(b: Items, i: nat, p: nat) {
    exists m: nat :: m <= i && m <= |b| && TermBefore(b, m) && p in At(b, m).open
  }

  /** Some instruction after the first terminator calls for a wait of a kind with a load still open. */
  ghost predicate LateAsk(b: Items) {
    exists i: nat, p: nat ::
      i < |b| && p < |b| && TermBefore(b, i) && p in At(b, i).open && Asks(b, At(b, i), i, b[p].kind)
  }

  // ---- The fields against that state ----

  /** Loads marked as waited for are not open, or about to be waited for. */
  ghost predicate Agrees(b: Items, i: nat, st: State, waited: seq<bool>, needs: seq<bool>, pending: set<nat>,
      hasStore: bool, fly: nat) {
    && i <= |b| == |waited| && |needs| == 3 && hasStore == st.stored && fly == st.fly
    && (forall p: nat :: p in st.open ==> p < i && b[p].load && b[p].kind < 3 && (!waited[p] || needs[b[p].kind]))
    && (forall p: nat :: p < i && b[p].load && p !in st.open ==> waited[p])
    && (forall k: nat :: k in pending <==> exists p: nat :: OpenOf(b, st, p, VMEM) && Brings(b, p, k))
  }

  ghost predicate Exactly(b: Items, st: State, i: nat, needs: seq<bool>, u: nat, q: nat)
    requires i < |b| && u <= |b[i].sources|
  {
    |needs| == 3 && forall k: nat :: k < 3 ==> (needs[k] <==> AsksFor(b, st, i, k, u, q))
  }

  ghost predicate Marked(b: Items, w0: seq<bool>, w1: seq<bool>, kind: nat, n: nat) {
    |w0| == |w1| == |b| && forall p :: 0 <= p < |b| ==> (w1[p] <==> w0[p] || (p < n && b[p].load && b[p].kind == kind))
  }

  lemma AgreesFly(b: Items, i: nat, st: State, waited: seq<bool>, needs: seq<bool>, pending: set<nat>, hasStore: bool,
      fly: nat)
    requires Agrees(b, i, st, waited, needs, pending, hasStore, fly)
    ensures st.fly == fly
  {
  }

  lemma StoresAsk(b: Items, i: nat, st: State, waited: seq<bool>, pending: set<nat>, hasStore: bool, fly: nat)
    requires i < |b| && Agrees(b, i, st, waited, [false, false, false], pending, hasStore, fly)
    ensures var needs := if b[i].afterStores && hasStore then [false, false, false][VMEM := true]
                         else [false, false, false];
            Agrees(b, i, st, waited, needs, pending, hasStore, fly) && Exactly(b, st, i, needs, 0, 0)
  {
  }

  /** What one more read asks for. */
  lemma SourceAsks(b: Items, vload: map<nat, nat>, i: nat, st: State, w0: seq<bool>, w1: seq<bool>, n0: seq<bool>,
      n1: seq<bool>, pending: set<nat>, hasStore: bool, fly: nat, u: nat)
    requires Orderly(b) && LoadMap(b, |b|, vload) && i < |b| && u < |b[i].sources|
    requires Agrees(b, i, st, w0, n0, pending, hasStore, fly) && Exactly(b, st, i, n0, u, 0)
    requires |n0| == 3 && |w0| == |b|
    requires var k := b[i].sources[u];
             var n := if k in pending then n0[VMEM := true] else n0;
             if k in vload && vload[k] < |b| && !w0[vload[k]]
             then w1 == w0[vload[k] := true] && b[vload[k]].kind < 3 && n1 == n[b[vload[k]].kind := true]
             else w1 == w0 && n1 == n
    ensures Agrees(b, i, st, w1, n1, pending, hasStore, fly) && Exactly(b, st, i, n1, u + 1, 0)
  {
    hide Exactly, Orderly;
    OrderlyParts(b);
    SourceMarks(b, vload, i, st, w0, w1, n0, n1, pending, hasStore, fly, u);
    hide Agrees;
    forall kind: nat | kind < 3
      ensures n1[kind] <==> AsksFor(b, st, i, kind, u + 1, 0)
    {
      SourceKind(b, vload, i, st, w0, n0, n1, pending, hasStore, fly, u, kind);
    }
    ExactlyAll(b, st, i, n1, u + 1, 0);
  }

  lemma OrderlyParts(b: Items)
    requires Orderly(b)
    ensures Tracked(b) && ItemsOk(b)
  {
  }

  lemma AtNext(b: Items, i: nat)
    requires i < |b|
    ensures var st := Noted(b, Settled(b, At(b, i), i), i);
            At(b, i + 1) == if b[i].load && b[i].kind == SMEM && st.fly >= MAX_SMEM_FLY then Dropped(b, st, SMEM)
                            else st
  {
    hide Settled;
  }

  lemma ExactlyAll(b: Items, st: State, i: nat, needs: seq<bool>, u: nat, q: nat)
    requires i < |b| && u <= |b[i].sources| && |needs| == 3
    requires forall k: nat :: k < 3 ==> (needs[k] <==> AsksFor(b, st, i, k, u, q))
    ensures Exactly(b, st, i, needs, u, q)
  {
  }

  lemma SourceMarks(b: Items, vload: map<nat, nat>, i: nat, st: State, w0: seq<bool>, w1: seq<bool>, n0: seq<bool>,
      n1: seq<bool>, pending: set<nat>, hasStore: bool, fly: nat, u: nat)
    requires Tracked(b) && ItemsOk(b) && LoadMap(b, |b|, vload) && i < |b| && u < |b[i].sources|
    requires Agrees(b, i, st, w0, n0, pending, hasStore, fly)
    requires var k := b[i].sources[u];
             var n := if k in pending then n0[VMEM := true] else n0;
             if k in vload && vload[k] < |b| && !w0[vload[k]]
             then w1 == w0[vload[k] := true] && b[vload[k]].kind < 3 && n1 == n[b[vload[k]].kind := true]
             else w1 == w0 && n1 == n
    ensures Agrees(b, i, st, w1, n1, pending, hasStore, fly)
  {
    hide Brings, Tracked, LoadMap, ItemsOk, OpenOf;
  }

  lemma SourceKind(b: Items, vload: map<nat, nat>, i: nat, st: State, w0: seq<bool>, n0: seq<bool>, n1: seq<bool>,
                   pending: set<nat>, hasStore: bool, fly: nat, u: nat, kind: nat)
    requires Tracked(b) && ItemsOk(b) && LoadMap(b, |b|, vload) && i < |b| && u < |b[i].sources| && kind < 3
    requires Agrees(b, i, st, w0, n0, pending, hasStore, fly) && Exactly(b, st, i, n0, u, 0)
    requires |n1| == 3
    requires var k := b[i].sources[u];
             var n := if k in pending then n0[VMEM := true] else n0;
             if k in vload && vload[k] < |b| && !w0[vload[k]]
             then b[vload[k]].kind < 3 && n1 == n[b[vload[k]].kind := true] else n1 == n
    ensures n1[kind] <==> AsksFor(b, st, i, kind, u + 1, 0)
  {
    var k := b[i].sources[u];
    SourceRead(b, i, u);
    MoreReads(b, st, i, kind, u);
    hide AsksFor;
    if k in vload {
      assert Brings(b, vload[k], k) && vload[k] < i;
    }
    forall p: nat | OpenOf(b, st, p, kind) && Brings(b, p, k)
      ensures n1[kind]
    {
      assert k in vload && vload[k] == p;
    }
  }

  lemma MoreReads(b: Items, st: State, i: nat, kind: nat, u: nat)
    requires i < |b| && u < |b[i].sources|
    ensures AsksFor(b, st, i, kind, u + 1, 0) <==>
              AsksFor(b, st, i, kind, u, 0) || exists p: nat :: OpenOf(b, st, p, kind) && Brings(b, p, b[i].sources[u])
  {
    hide OpenOf, Brings;
  }

  /** What one more issued load adds at a barrier. */
  lemma BarrierAsks(b: Items, i: nat, st: State, w0: seq<bool>, w1: seq<bool>, n0: seq<bool>, n1: seq<bool>,
                    pending: set<nat>, hasStore: bool, fly: nat, p: nat)
    requires i < |b| && p < i && b[i].barrier && ItemsOk(b)
    requires Agrees(b, i, st, w0, n0, pending, hasStore, fly) && Exactly(b, st, i, n0, |b[i].sources|, p)
    requires if b[p].load && !w0[p] then w1 == w0[p := true] && n1 == n0[b[p].kind := true] else w1 == w0 && n1 == n0
    ensures Agrees(b, i, st, w1, n1, pending, hasStore, fly) && Exactly(b, st, i, n1, |b[i].sources|, p + 1)
  {
    hide Brings;
    forall kind: nat | kind < 3
      ensures n1[kind] <==> AsksFor(b, st, i, kind, |b[i].sources|, p + 1)
    {
      MoreIssued(b, st, i, kind, p);
      assert OpenOf(b, st, p, kind) <==> p in st.open && b[p].kind == kind;
    }
  }

  lemma MoreIssued(b: Items, st: State, i: nat, kind: nat, p: nat)
    requires i < |b| && b[i].barrier
    ensures AsksFor(b, st, i, kind, |b[i].sources|, p + 1) <==>
              AsksFor(b, st, i, kind, |b[i].sources|, p) || OpenOf(b, st, p, kind)
  {
    hide OpenOf, Brings;
  }

  lemma NoBarrierAsks(b: Items, st: State, i: nat, needs: seq<bool>)
    requires i < |b| && !b[i].barrier && Exactly(b, st, i, needs, |b[i].sources|, 0)
    ensures Exactly(b, st, i, needs, |b[i].sources|, i)
  {
    hide OpenOf, Brings;
    forall kind: nat | kind < 3
      ensures needs[kind] <==> AsksFor(b, st, i, kind, |b[i].sources|, i)
    {
    }
  }

  lemma WaitAgrees(b: Items, i: nat, st: State, w0: seq<bool>, w1: seq<bool>, needs: seq<bool>, pending: set<nat>,
      hasStore: bool, fly: nat, kind: nat)
    requires Agrees(b, i, st, w0, needs, pending, hasStore, fly) && Marked(b, w0, w1, kind, i) && kind < 3
    ensures Agrees(b, i, Dropped(b, st, kind), w1, needs[kind := false], if kind == VMEM then {} else pending,
                   hasStore && kind != VMEM, if kind == SMEM then 0 else fly)
  {
    var st' := Dropped(b, st, kind);
    forall p: nat
      ensures OpenOf(b, st', p, VMEM) <==> kind != VMEM && OpenOf(b, st, p, VMEM)
    {
    }
    hide Brings, OpenOf;
  }

  lemma AllDropped(b: Items, st: State, i: nat, needs: seq<bool>)
    requires i < |b| && Exactly(b, st, i, needs, |b[i].sources|, i)
    ensures |needs| == 3 && DroppedBelow(b, st, needs, 3) == Settled(b, st, i)
  {
    hide AsksFor, DroppedBelow;
    assert needs == AllAsks(b, st, i);
  }

  lemma IssueAgrees(b: Items, i: nat, st: State, waited: seq<bool>, pending: set<nat>, hasStore: bool, fly: nat)
    requires ItemsOk(b) && i < |b| && Agrees(b, i, st, waited, [false, false, false], pending, hasStore, fly)
    requires !waited[i]
    ensures Agrees(b, i + 1, Noted(b, st, i), waited, [false, false, false],
                   if b[i].load && b[i].kind == VMEM then pending + set k | k in b[i].defs else pending,
                   hasStore || b[i].vmemStore, if b[i].load && b[i].kind == SMEM then fly + 1 else fly)
  {
    var st' := Noted(b, st, i);
    var pending' := if b[i].load && b[i].kind == VMEM then pending + set k | k in b[i].defs else pending;
    forall k: nat
      ensures k in pending' <==> exists p: nat :: OpenOf(b, st', p, VMEM) && Brings(b, p, k)
    {
      PendingGrows(b, i, st, k);
    }
    hide OpenOf, Brings;
  }

  lemma PendingGrows(b: Items, i: nat, st: State, k: nat)
    requires i < |b|
    ensures (exists p: nat :: OpenOf(b, Noted(b, st, i), p, VMEM) && Brings(b, p, k)) <==>
              (exists p: nat :: OpenOf(b, st, p, VMEM) && Brings(b, p, k))
              || (b[i].load && b[i].kind == VMEM && k in b[i].defs)
  {
    var st' := Noted(b, st, i);
    if p: nat :| OpenOf(b, st, p, VMEM) && Brings(b, p, k) {
      assert OpenOf(b, st', p, VMEM);
    }
    if b[i].load && b[i].kind == VMEM && k in b[i].defs {
      assert OpenOf(b, st', i, VMEM) && Brings(b, i, k);
    }
    if p: nat :| OpenOf(b, st', p, VMEM) && Brings(b, p, k) {
      assert p == i || OpenOf(b, st, p, VMEM);
    }
  }

  lemma NotWaitedYet(b: Items, i: nat, waited: seq<bool>, out: seq<Out>)
    requires i < |b|
    ensures Sound(b, i, waited, [false, false, false], out) ==> |waited| == |b| && !waited[i]
  {
  }

  // ---- The output against that state ----

  ghost predicate HasTerm(b: Items, out: seq<Out>) {
    exists u :: 0 <= u < |out| && IsTerm(b, out[u])
  }

  /** The loads among the first n that have their wait in time are those that are neither open nor
      missed. */
  ghost predicate Timely(b: Items, i: nat, n: nat, st: State, out: seq<Out>) {
    forall p: nat :: p < n && p < |b| && b[p].load ==> (InTime(b, out, p) <==> p !in st.open && !Missed(b, i, p))
  }

  lemma KeptTerm(b: Items, n: nat, out: seq<Out>)
    requires n <= |b| && Kept(b, n, out)
    ensures HasTerm(b, out) <==> TermBefore(b, n)
  {
    hide NeverOver, Tracked, MetVector, Met, Dos;
    if TermBefore(b, n) {
      var p :| 0 <= p < n && p < |b| && b[p].term;
      assert Do(p) in out;
    }
  }

  lemma InTimeWait(b: Items, out: seq<Out>, p: nat, kind: nat)
    requires p < |b| && Do(p) in out
    ensures InTime(b, out + [Wait(kind)], p) <==> InTime(b, out, p) || (!HasTerm(b, out) && b[p].kind == kind)
  {
    hide IsTerm;
    var o, n := out + [Wait(kind)], |out|;
    WaitIsNoTerm(b, kind);
    assert forall u :: 0 <= u < n ==> o[u] == out[u];
    if InTime(b, out, p) {
      var a, w :| 0 <= a < w < n && out[a] == Do(p) && out[w] == Wait(b[p].kind)
          && forall u :: 0 <= u <= w ==> !IsTerm(b, out[u]);
      assert o[a] == Do(p) && o[w] == Wait(b[p].kind);
    }
    if !HasTerm(b, out) && b[p].kind == kind {
      var a :| 0 <= a < n && out[a] == Do(p);
      assert o[a] == Do(p) && o[n] == Wait(kind);
    }
    if InTime(b, o, p) {
      var a, w :| 0 <= a < w < |o| && o[a] == Do(p) && o[w] == Wait(b[p].kind)
          && forall u :: 0 <= u <= w ==> !IsTerm(b, o[u]);
      assert out[a] == Do(p) && (w < n ==> out[w] == Wait(b[p].kind));
    }
  }

  lemma WaitIsNoTerm(b: Items, kind: nat)
    ensures !IsTerm(b, Wait(kind))
  {
  }

  lemma InTimeDo(b: Items, out: seq<Out>, p: nat, i: nat)
    requires p < |b|
    ensures InTime(b, out + [Do(i)], p) <==> InTime(b, out, p)
  {
    hide IsTerm;
    var o, n := out + [Do(i)], |out|;
    assert forall u :: 0 <= u < n ==> o[u] == out[u];
    if InTime(b, out, p) {
      var a, w :| 0 <= a < w < n && out[a] == Do(p) && out[w] == Wait(b[p].kind)
          && forall u :: 0 <= u <= w ==> !IsTerm(b, out[u]);
      assert o[a] == Do(p) && o[w] == Wait(b[p].kind);
    }
    if InTime(b, o, p) {
      var a, w :| 0 <= a < w < |o| && o[a] == Do(p) && o[w] == Wait(b[p].kind)
          && forall u :: 0 <= u <= w ==> !IsTerm(b, o[u]);
      assert out[a] == Do(p) && out[w] == Wait(b[p].kind);
    }
  }

  /** A wait before the first terminator is in time for its kind; after it, its loads are missed. */
  lemma WaitTimely(b: Items, i: nat, n: nat, done: nat, st: State, out: seq<Out>, kind: nat)
    requires i <= |b| && n <= done <= |b| && Kept(b, done, out) && Timely(b, i, n, st, out)
    requires TermBefore(b, done) <==> TermBefore(b, i)
    requires TermBefore(b, i) ==> st.open <= At(b, i).open
    ensures Timely(b, i, n, Dropped(b, st, kind), out + [Wait(kind)])
  {
    hide InTime, At, HasTerm, Kept;
    KeptTerm(b, done, out);
    forall p: nat | p < n && p < |b| && b[p].load
      ensures InTime(b, out + [Wait(kind)], p) <==> p !in Dropped(b, st, kind).open && !Missed(b, i, p)
    {
      KeptIn(b, done, out, p);
      InTimeWait(b, out, p, kind);
      NotMissed(b, i, p);
    }
  }

  lemma KeptIn(b: Items, n: nat, out: seq<Out>, p: nat)
    requires Kept(b, n, out) && p < n
    ensures Do(p) in out
  {
  }

  lemma NotMissed(b: Items, i: nat, p: nat)
    requires i <= |b|
    ensures !TermBefore(b, i) ==> !Missed(b, i, p)
    ensures TermBefore(b, i) && p in At(b, i).open ==> Missed(b, i, p)
  {
    hide At;
  }

  lemma IssueTimely(b: Items, i: nat, st: State, out: seq<Out>)
    requires i < |b| && Kept(b, i, out) && Timely(b, i, i, st, out)
    ensures Timely(b, i, i + 1, Noted(b, st, i), out + [Do(i)])
  {
    hide Missed, Dos, NeverOver, MetVector, Met, Tracked;
    forall p: nat | p < i + 1 && b[p].load
      ensures InTime(b, out + [Do(i)], p) <==> p !in Noted(b, st, i).open && !Missed(b, i, p)
    {
      InTimeDo(b, out, p, i);
      hide IsTerm;
    }
  }

  /** A load comes before every terminator. */
  lemma LoadBeforeTerms(b: Items, i: nat)
    requires Orderly(b) && i < |b| && b[i].load
    ensures !TermBefore(b, i) && !TermBefore(b, i + 1)
  {
  }

  lemma NextTimely(b: Items, i: nat, out: seq<Out>)
    requires i < |b| && Timely(b, i, i + 1, At(b, i + 1), out)
    ensures Timely(b, i + 1, i + 1, At(b, i + 1), out)
  {
    hide InTime, At, TermBefore;
  }

  /** After scalar loads are drained. */
  lemma DrainFollows(b: Items, i: nat, w0: seq<bool>, w1: seq<bool>, pending: set<nat>, hasStore: bool, fly: nat,
      out: seq<Out>)
    requires Orderly(b) && i < |b| && b[i].load && b[i].kind == SMEM && fly >= MAX_SMEM_FLY
    requires Kept(b, i + 1, out) && Marked(b, w0, w1, SMEM, i + 1)
    requires var st := Noted(b, Settled(b, At(b, i), i), i);
             Agrees(b, i + 1, st, w0, [false, false, false], pending, hasStore, fly) && Timely(b, i, i + 1, st, out)
    ensures Agrees(b, i + 1, At(b, i + 1), w1, [false, false, false], pending, hasStore, 0)
    ensures Timely(b, i + 1, i + 1, At(b, i + 1), out + [Wait(SMEM)])
  {
    hide Orderly, Kept, Marked, Agrees, Timely, Settled, At, Dropped, TermBefore;
    var st := Noted(b, Settled(b, At(b, i), i), i);
    AtNext(b, i);
    AgreesFly(b, i + 1, st, w0, [false, false, false], pending, hasStore, fly);
    WaitAgrees(b, i + 1, st, w0, w1, [false, false, false], pending, hasStore, fly, SMEM);
    assert [false, false, false][SMEM := false] == [false, false, false];
    LoadBeforeTerms(b, i);
    WaitTimely(b, i, i + 1, i + 1, st, out, SMEM);
    NextTimely(b, i, out + [Wait(SMEM)]);
  }

  // ---- The inserter ----

  class Inserter {
    const b: Items
    const vload: map<nat, nat>
    var waited: seq<bool>
    var pending: set<nat>
    var hasStore: bool
    var fly: nat
    var out: seq<Out>

    constructor (b: Items, vload: map<nat, nat>)
      ensures this.b == b && this.vload == vload && waited == seq(|b|, _ => false)
      ensures pending == {} && !hasStore && fly == 0 && out == []
    {
      this.b, this.vload := b, vload;
      waited, pending, hasStore, fly, out := seq(|b|, _ => false), {}, false, 0, [];
    }

    ghost predicate Valid(i: nat, needs: seq<bool>)
      reads this
    {
      && ItemsOk(b) && LoadMap(b, |b|, vload) && i <= |b| && |waited| == |b| && |needs| == 3
      && Kept(b, i, out) && fly == InFlight(b, out) < MAX_SMEM_FLY && PendingOk(b, i, pending, out)
      && (Tracked(b) ==> Sound(b, i, waited, needs, out)) && Fenced(b, i, hasStore, out)
    }

    /** The fields are as the specification has them in state st; Timely is about the output. */
    ghost predicate Follows(i: nat, st: State, needs: seq<bool>)
      reads this
    {
      Orderly(b) ==> Agrees(b, i, st, waited, needs, pending, hasStore, fly) && Timely(b, i, i, st, out)
    }

    /** Which waits the reads of instruction i call for. */
    method CheckReads(i: nat) returns (needs: seq<bool>)
      requires i < |b| && Valid(i, [false, false, false]) && Follows(i, At(b, i), [false, false, false])
      modifies this`waited
      ensures Valid(i, needs) && Asked(b, vload, pending, waited, needs, i, |b[i].sources|)
      ensures b[i].afterStores && hasStore ==> needs[VMEM]
      ensures Follows(i, At(b, i), needs) && (Orderly(b) ==> Exactly(b, At(b, i), i, needs, |b[i].sources|, 0))
    {
      hide Fenced, Kept, PendingOk, Sound, Tracked, LoadMap, ItemsOk, Asked, Agrees, Timely, Orderly, Exactly, At;
      ghost var st := At(b, i);
      needs := [false, false, false];
      NothingAsked(b, vload, pending, waited, needs, i);
      if b[i].afterStores && hasStore {
        NeedMore(b, i, waited, needs, out, VMEM);
        needs := needs[VMEM := true];
      }
      if Orderly(b) {
        StoresAsk(b, i, st, waited, pending, hasStore, fly);
      }
      NothingAsked(b, vload, pending, waited, needs, i);
      for u := 0 to |b[i].sources|
        modifies this`waited
        invariant Valid(i, needs) && Asked(b, vload, pending, waited, needs, i, u)
        invariant b[i].afterStores && hasStore ==> needs[VMEM]
        invariant Follows(i, st, needs) && (Orderly(b) ==> Exactly(b, st, i, needs, u, 0))
      {
        var k := b[i].sources[u];
        SourceRead(b, i, u);
        ghost var n0, w0 := needs, waited;
        if k in pending {
          NeedMore(b, i, waited, needs, out, VMEM);
          needs := needs[VMEM := true];
        }
        if k in vload {
          MarkOne(b, vload, i, waited, needs, out, k);
          var li := vload[k];
          if !waited[li] {
            needs := needs[b[li].kind := true];
            waited := waited[li := true];
          }
        }
        AskedMore(b, vload, pending, w0, waited, n0, needs, i, u);
        if Orderly(b) {
          SourceAsks(b, vload, i, st, w0, waited, n0, needs, pending, hasStore, fly, u);
        }
      }
    }

    /** A barrier waits for every load issued so far. */
    method CheckBarrier(i: nat, asked: seq<bool>) returns (needs: seq<bool>)
      requires i < |b| && Valid(i, asked)
      requires Follows(i, At(b, i), asked) && (Orderly(b) ==> Exactly(b, At(b, i), i, asked, |b[i].sources|, 0))
      modifies this`waited
      ensures Valid(i, needs) && Stronger(asked, needs) && Stronger(old(waited), waited)
      ensures b[i].barrier ==> forall p: nat :: p < i && b[p].load ==> waited[p]
      ensures Follows(i, At(b, i), needs) && (Orderly(b) ==> Exactly(b, At(b, i), i, needs, |b[i].sources|, i))
    {
      hide Fenced, Kept, PendingOk, Sound, Tracked, LoadMap, Agrees, Timely, Orderly, Exactly, At;
      ghost var st := At(b, i);
      needs := asked;
      if b[i].barrier {
        for p: nat := 0 to i
          modifies this`waited
          invariant Valid(i, needs) && Stronger(asked, needs) && Stronger(old(waited), waited)
          invariant forall q: nat :: q < p && b[q].load ==> waited[q]
          invariant Follows(i, st, needs) && (Orderly(b) ==> Exactly(b, st, i, needs, |b[i].sources|, p))
        {
          ghost var n0, w0 := needs, waited;
          if b[p].load && !waited[p] {
            MarkPast(b, i, waited, needs, out, p);
            needs := needs[b[p].kind := true];
            waited := waited[p := true];
          }
          if Orderly(b) {
            BarrierAsks(b, i, st, w0, waited, n0, needs, pending, hasStore, fly, p);
          }
        }
      } else if Orderly(b) {
        NoBarrierAsks(b, st, i, needs);
      }
    }

    /** Emit one wait: everything of its kind issued so far has arrived. */
    method EmitWait(i: nat, kind: nat, ghost needs: seq<bool>, ghost st: State)
      requires i < |b| && kind < 3 && Valid(i, needs) && Follows(i, st, needs) && st.open <= At(b, i).open
      modifies this
      ensures Valid(i, needs[kind := false]) && Stronger(old(waited), waited)
      ensures pending == if kind == VMEM then {} else old(pending)
      ensures hasStore == (old(hasStore) && kind != VMEM)
      ensures kind == SMEM ==> fly == 0
      ensures Follows(i, Dropped(b, st, kind), needs[kind := false])
    {
      hide Fenced, Kept, PendingOk, Sound, Tracked, LoadMap, NeverOver, InFlight, Agrees, Timely, Orderly, At, Dropped,
           TermBefore;
      ghost var w0, p0, h0, f0, o0 := waited, pending, hasStore, fly, out;
      KeptWait(b, i, out, kind);
      FencedWait(b, i, hasStore, out, kind);
      FlightStep(b, out, Wait(kind));
      PendingWait(b, i, pending, out, kind);
      SoundWait(b, i, waited, needs, out, kind);
      out := out + [Wait(kind)];
      if kind == SMEM {
        fly := 0;
      }
      if kind == VMEM {
        pending := {};
        hasStore := false;
      }
      MarkKind(i, kind, needs[kind := false]);
      if Orderly(b) {
        WaitAgrees(b, i, st, w0, waited, needs, p0, h0, f0, kind);
        WaitTimely(b, i, i, i, st, o0, kind);
      }
    }

    /** The loads of a kind issued so far are waited for. */
    method MarkKind(i: nat, kind: nat, ghost needs: seq<bool>)
      requires i <= |b| && Valid(i, needs)
      requires forall p: nat :: p < i && b[p].kind == kind ==> After(out, p, kind)
      modifies this`waited
      ensures Valid(i, needs) && Stronger(old(waited), waited) && Marked(b, old(waited), waited, kind, i)
    {
      hide Fenced, Kept, PendingOk, Sound, Tracked, LoadMap, NeverOver, InFlight, After;
      ghost var w0 := waited;
      for p: nat := 0 to i
        modifies this`waited
        invariant Valid(i, needs) && Stronger(w0, waited) && Marked(b, w0, waited, kind, p)
      {
        if b[p].load && b[p].kind == kind {
          SoundPast(b, i, waited, needs, out, p);
          waited := waited[p := true];
        }
      }
    }

    /** The waits that instruction i called for, kind by kind. */
    method EmitWaits(i: nat, needs: seq<bool>)
      requires i < |b| && Valid(i, needs)
      requires Follows(i, At(b, i), needs) && (Orderly(b) ==> Exactly(b, At(b, i), i, needs, |b[i].sources|, i))
      modifies this
      ensures Valid(i, [false, false, false]) && Stronger(old(waited), waited)
      ensures pending <= old(pending) && (needs[VMEM] ==> pending == {})
      ensures hasStore ==> old(hasStore) && !needs[VMEM]
      ensures Follows(i, Settled(b, At(b, i), i), [false, false, false])
    {
      hide Fenced, Kept, PendingOk, Sound, Tracked, LoadMap, Agrees, Timely, Orderly, At, Exactly;
      ghost var left := needs;
      ghost var st := At(b, i);
      for k := 0 to 3
        modifies this
        invariant Valid(i, left) && Stronger(old(waited), waited) && Follows(i, st, left)
        invariant st == DroppedBelow(b, At(b, i), needs, k) && st.open <= At(b, i).open
        invariant forall j :: 0 <= j < 3 ==> left[j] == (j >= k && needs[j])
        invariant pending <= old(pending) && (k > VMEM && needs[VMEM] ==> pending == {})
        invariant hasStore ==> old(hasStore) && !(k > VMEM && needs[VMEM])
      {
        if needs[k] {
          EmitWait(i, k, left, st);
          left := left[k := false];
          st := Dropped(b, st, k);
        }
      }
      assert left == [false, false, false];
      if Orderly(b) {
        AllDropped(b, At(b, i), i, needs);
      }
    }

    /** Issue instruction i and note what it owes; drain scalar loads when too many are out. */
    method Issue(i: nat)
      requires i < |b| && Valid(i, [false, false, false])
      requires Answered(b, vload, pending, waited, i) && Follows(i, Settled(b, At(b, i), i), [false, false, false])
      requires b[i].afterStores ==> !hasStore
      requires b[i].barrier ==> forall p: nat :: p < i && b[p].load ==> waited[p]
      modifies this
      ensures Valid(i + 1, [false, false, false]) && Stronger(old(waited), waited)
      ensures Follows(i + 1, At(b, i + 1), [false, false, false])
    {
      hide Fenced, Kept, Sound, Tracked, LoadMap, NeverOver, InFlight, Answered, PendingOk, Agrees, Timely, Orderly,
           Settled, At;
      ghost var st := Settled(b, At(b, i), i);
      ghost var p0, h0, f0, o0 := pending, hasStore, fly, out;
      AllMet(b, vload, pending, waited, out, i);
      if Tracked(b) && b[i].barrier {
        BarrierReady(b, i, waited, out);
      }
      FencedDo(b, i, hasStore, out);
      FlightStep(b, out, Do(i));
      PendingDo(b, i, pending, out);
      SoundDo(b, i, waited, out);
      NotWaitedYet(b, i, waited, out);
      out := out + [Do(i)];
      if b[i].load && b[i].kind == VMEM {
        ghost var was := pending;
        for d := 0 to |b[i].defs|
          modifies this`pending
          invariant forall k :: k in pending <==> k in was || k in b[i].defs[..d]
        {
          assert b[i].defs[..d + 1] == b[i].defs[..d] + [b[i].defs[d]];
          pending := pending + {b[i].defs[d]};
        }
        assert b[i].defs[..|b[i].defs|] == b[i].defs;
        assert pending == was + set k | k in b[i].defs;
      }
      if b[i].vmemStore {
        hasStore := true;
      }
      if b[i].load && b[i].kind == SMEM {
        fly := fly + 1;
      }
      if Orderly(b) {
        OrderlyParts(b);
        AtNext(b, i);
        IssueAgrees(b, i, st, waited, p0, h0, f0);
        AgreesFly(b, i, st, waited, [false, false, false], p0, h0, f0);
        IssueTimely(b, i, st, o0);
      }
      if b[i].load && b[i].kind == SMEM && fly >= MAX_SMEM_FLY {
        DrainScalar(i);
      } else if Orderly(b) {
        NextTimely(b, i, out);
      }
    }

    /** All instructions in scheduled order. */
    method InsertAll()
      requires Valid(0, [false, false, false]) && Follows(0, At(b, 0), [false, false, false])
      modifies this
      ensures Valid(|b|, [false, false, false]) && Follows(|b|, At(b, |b|), [false, false, false])
    {
      hide Fenced, Kept, PendingOk, Sound, Tracked, LoadMap, InFlight, Asked, Answered, Stronger, ItemsOk, Agrees,
           Timely, Orderly, Settled, At, Exactly;
      for i: nat := 0 to |b|
        modifies this
        invariant Valid(i, [false, false, false]) && Follows(i, At(b, i), [false, false, false])
      {
        ghost var asked := pending;
        var needs := CheckReads(i);
        ghost var w0, n0 := waited, needs;
        needs := CheckBarrier(i, needs);
        ghost var w1 := waited;
        EmitWaits(i, needs);
        ReadsAnswered(b, vload, asked, pending, w0, w1, waited, n0, needs, i);
        StrongerAt(n0, needs, VMEM);
        StillMarked(b, i, w1, waited);
        Issue(i);
      }
    }

    method DrainScalar(i: nat)
      requires i < |b| && b[i].load && b[i].kind == SMEM && fly == InFlight(b, out) == MAX_SMEM_FLY
      requires ItemsOk(b) && LoadMap(b, |b|, vload) && |waited| == |b| && Kept(b, i + 1, out)
      requires PendingOk(b, i + 1, pending, out) && Fenced(b, i + 1, hasStore, out)
      requires Tracked(b) ==> Sound(b, i + 1, waited, [false, false, false], out)
      requires Orderly(b) ==> var st := Noted(b, Settled(b, At(b, i), i), i);
                              Agrees(b, i + 1, st, waited, [false, false, false], pending, hasStore, fly)
                              && Timely(b, i, i + 1, st, out)
      modifies this`out, this`fly, this`waited
      ensures Valid(i + 1, [false, false, false]) && Stronger(old(waited), waited)
      ensures Follows(i + 1, At(b, i + 1), [false, false, false])
    {
      hide Fenced, Kept, PendingOk, Sound, Tracked, LoadMap, NeverOver, InFlight, Agrees, Timely, Orderly, Settled, At,
           TermBefore;
      ghost var w0, f0, o0 := waited, fly, out;
      KeptWait(b, i + 1, out, SMEM);
      FencedWait(b, i + 1, hasStore, out, SMEM);
      FlightStep(b, out, Wait(SMEM));
      PendingWait(b, i + 1, pending, out, SMEM);
      SoundWait(b, i + 1, waited, [false, false, false], out, SMEM);
      assert [false, false, false][SMEM := false] == [false, false, false];
      out := out + [Wait(SMEM)];
      fly := 0;
      MarkKind(i + 1, SMEM, [false, false, false]);
      if Orderly(b) {
        DrainFollows(b, i, w0, waited, pending, hasStore, f0, o0);
      }
    }
  }

  /** The first u reads have been looked at. */
  ghost predicate Asked(b: Items, vload: map<nat, nat>, pending: set<nat>, waited: seq<bool>, needs: seq<bool>, i: nat,
      u: nat) {
    && i < |b| && |needs| == 3 && u <= |b[i].sources|
    && forall v :: 0 <= v < u ==> AskedOne(b[i].sources[v], vload, pending, waited, needs)
  }

  ghost predicate AskedOne(k: nat, vload: map<nat, nat>, pending: set<nat>, waited: seq<bool>, needs: seq<bool>) {
    |needs| == 3 && (k in pending ==> needs[VMEM]) && (k in vload ==> vload[k] < |waited| && waited[vload[k]])
  }

  ghost predicate Stronger(a: seq<bool>, c: seq<bool>) {
    |a| == |c| && forall x :: 0 <= x < |a| && a[x] ==> c[x]
  }

  lemma StrongerAt(a: seq<bool>, c: seq<bool>, x: nat)
    requires Stronger(a, c) && x < |a|
    ensures x < |c| && (a[x] ==> c[x])
  {
  }

  lemma StillMarked(b: Items, i: nat, w0: seq<bool>, w1: seq<bool>)
    requires i <= |b| == |w0| && Stronger(w0, w1)
    ensures |w1| == |b|
    ensures (forall p: nat :: p < i && b[p].load ==> w0[p]) ==> forall p: nat :: p < i && b[p].load ==> w1[p]
  {
  }

  lemma NothingAsked(b: Items, vload: map<nat, nat>, pending: set<nat>, waited: seq<bool>, needs: seq<bool>, i: nat)
    requires i < |b| && |needs| == 3
    ensures Asked(b, vload, pending, waited, needs, i, 0)
  {
  }

  lemma AskedMore(b: Items, vload: map<nat, nat>, pending: set<nat>, w0: seq<bool>, w1: seq<bool>, n0: seq<bool>,
      n1: seq<bool>, i: nat, u: nat)
    requires Asked(b, vload, pending, w0, n0, i, u) && Stronger(w0, w1) && Stronger(n0, n1) && u < |b[i].sources|
    requires AskedOne(b[i].sources[u], vload, pending, w1, n1)
    ensures Asked(b, vload, pending, w1, n1, i, u + 1)
  {
  }

  lemma SourceRead(b: Items, i: nat, u: nat)
    requires i < |b| && u < |b[i].sources|
    ensures Reads(b, i, b[i].sources[u])
  {
  }

  lemma NeedMore(b: Items, i: nat, waited: seq<bool>, needs: seq<bool>, out: seq<Out>, kind: nat)
    requires |needs| == 3 && kind < 3
    ensures Sound(b, i, waited, needs, out) ==> Sound(b, i, waited, needs[kind := true], out)
  {
  }

  lemma MarkOne(b: Items, vload: map<nat, nat>, i: nat, waited: seq<bool>, needs: seq<bool>, out: seq<Out>, k: nat)
    requires ItemsOk(b) && LoadMap(b, |b|, vload) && k in vload && Reads(b, i, k) && |waited| == |b| && |needs| == 3
    ensures vload[k] < |b| && b[vload[k]].kind < 3 && Brings(b, vload[k], k)
    ensures Tracked(b) && Sound(b, i, waited, needs, out) ==>
              Sound(b, i, waited[vload[k] := true], needs[b[vload[k]].kind := true], out)
  {
  }

  lemma MarkPast(b: Items, i: nat, waited: seq<bool>, needs: seq<bool>, out: seq<Out>, p: nat)
    requires ItemsOk(b) && p < i <= |b| && |waited| == |b| && |needs| == 3
    ensures b[p].kind < 3
    ensures Sound(b, i, waited, needs, out) ==> Sound(b, i, waited[p := true], needs[b[p].kind := true], out)
  {
  }

  lemma PendingWait(b: Items, i: nat, pending: set<nat>, out: seq<Out>, kind: nat)
    requires i <= |b| && PendingOk(b, i, pending, out) && Kept(b, i, out)
    ensures PendingOk(b, i, if kind == VMEM then {} else pending, out + [Wait(kind)])
  {
    hide After, Brings, Dos, NeverOver, MetVector, Met, Tracked;
    forall p: nat | p < i
      ensures kind == VMEM || After(out, p, VMEM) ==> After(out + [Wait(kind)], p, VMEM)
    {
      AppendAfter(out, Wait(kind), p, VMEM);
      if kind == VMEM {
        AppendWait(out, p, VMEM);
      }
    }
  }

  /** The wait makes good for its kind. */
  lemma SoundWait(b: Items, i: nat, waited: seq<bool>, needs: seq<bool>, out: seq<Out>, kind: nat)
    requires i <= |b| && Kept(b, i, out) && |needs| == 3 && kind < 3
    ensures Sound(b, i, waited, needs, out) ==> Sound(b, i, waited, needs[kind := false], out + [Wait(kind)])
    ensures forall p: nat :: p < i && b[p].kind == kind ==> After(out + [Wait(kind)], p, kind)
  {
    hide After, Dos, NeverOver, MetVector, Met, Tracked;
    forall p: nat, k: nat | p < i
      ensures After(out, p, k) ==> After(out + [Wait(kind)], p, k)
      ensures After(out + [Wait(kind)], p, kind)
    {
      AppendAfter(out, Wait(kind), p, k);
      AppendWait(out, p, kind);
    }
  }

  lemma SoundPast(b: Items, i: nat, waited: seq<bool>, needs: seq<bool>, out: seq<Out>, p: nat)
    requires p < i <= |b| == |waited| && ItemsOk(b) && After(out, p, b[p].kind)
    ensures Sound(b, i, waited, needs, out) ==> Sound(b, i, waited[p := true], needs, out)
  {
    hide After;
  }

  lemma PendingDo(b: Items, i: nat, pending: set<nat>, out: seq<Out>)
    requires i < |b| && PendingOk(b, i, pending, out)
    ensures PendingOk(b, i + 1,
                      if b[i].load && b[i].kind == VMEM then pending + set k | k in b[i].defs else pending,
                      out + [Do(i)])
  {
    hide After;
    forall p: nat | p < i && After(out, p, VMEM)
      ensures After(out + [Do(i)], p, VMEM)
    {
      AppendAfter(out, Do(i), p, VMEM);
    }
    assert b[i].load ==> forall k :: k in b[i].defs ==> Brings(b, i, k);
  }

  lemma SoundDo(b: Items, i: nat, waited: seq<bool>, out: seq<Out>)
    ensures Sound(b, i, waited, [false, false, false], out) ==>
              Sound(b, i + 1, waited, [false, false, false], out + [Do(i)])
  {
    hide After;
    forall p: nat, k: nat | After(out, p, k)
      ensures After(out + [Do(i)], p, k)
    {
      AppendAfter(out, Do(i), p, k);
    }
  }

  /** The reads of instruction i find nothing pending and every load marked. */
  ghost predicate Answered(b: Items, vload: map<nat, nat>, pending: set<nat>, waited: seq<bool>, i: nat) {
    forall k: nat :: Reads(b, i, k) ==> k !in pending && (k in vload ==> vload[k] < |waited| && waited[vload[k]])
  }

  lemma AllMet(b: Items, vload: map<nat, nat>, pending: set<nat>, waited: seq<bool>, out: seq<Out>, i: nat)
    requires i < |b| && Kept(b, i, out) && InFlight(b, out) < MAX_SMEM_FLY && PendingOk(b, i, pending, out)
    requires LoadMap(b, |b|, vload)
    requires Tracked(b) ==> Sound(b, i, waited, [false, false, false], out)
    requires Answered(b, vload, pending, waited, i)
    ensures Kept(b, i + 1, out + [Do(i)])
  {
    hide After, Kept, InFlight, Reads;
    if Tracked(b) {
      forall p: nat, k: nat | Brings(b, p, k) && Reads(b, i, k)
        ensures After(out, p, b[p].kind)
      {
        assert vload[k] == p;
      }
    }
    KeptDo(b, i, out);
  }

  lemma ReadsAnswered(b: Items, vload: map<nat, nat>, before: set<nat>, pending: set<nat>, w0: seq<bool>, w1: seq<bool>,
      waited: seq<bool>, n0: seq<bool>, needs: seq<bool>, i: nat)
    requires i < |b| && Asked(b, vload, before, w0, n0, i, |b[i].sources|) && Stronger(w0, w1) && Stronger(w1, waited)
    requires Stronger(n0, needs)
    requires |needs| == 3 && pending <= before && (needs[VMEM] ==> pending == {})
    ensures Answered(b, vload, pending, waited, i)
  {
    forall k: nat | Reads(b, i, k)
      ensures k !in pending && (k in vload ==> vload[k] < |waited| && waited[vload[k]])
    {
      var v :| 0 <= v < |b[i].sources| && b[i].sources[v] == k;
      assert AskedOne(b[i].sources[v], vload, before, w0, n0);
    }
  }

  // ---- Trailing waits ----

  ghost predicate IsTerm(b: Items, x: Out) {
    x.Do? && x.at < |b| && b[x.at].term
  }

  ghost predicate OnlyWaits(ws: seq<Out>) {
    forall u :: 0 <= u < |ws| ==> ws[u].Wait?
  }

  /** A wait for load p stands after it and before every terminator. */
  ghost predicate InTime(b: Items, out: seq<Out>, p: nat) {
    && p < |b|
    && exists a, w ::
         && 0 <= a < w < |out| && out[a] == Do(p) && out[w] == Wait(b[p].kind)
         && forall u :: 0 <= u <= w ==> !IsTerm(b, out[u])
  }

  lemma InsertBetween(x: seq<Out>, ws: seq<Out>, y: seq<Out>, p: nat, k: nat, r: nat)
    requires Between(x + y, p, k, r)
    ensures Between(x + ws + y, p, k, r)
  {
    var o, f := x + y, x + ws + y;
    var a, w, c :| 0 <= a < w < c < |o| && o[a] == Do(p) && o[w] == Wait(k) && o[c] == Do(r);
    var n := |ws|;
    var a', w', c' := if a < |x| then a else a + n, if w < |x| then w else w + n, if c < |x| then c else c + n;
    assert f[a'] == o[a] && f[w'] == o[w] && f[c'] == o[c];
  }

  lemma {:induction false} DosAppend(x: seq<Out>, y: seq<Out>)
    ensures Dos(x + y) == Dos(x) + Dos(y)
    decreases |y|
  {
    if y == [] {
      assert x + y == x;
    } else {
      var n := |y| - 1;
      assert (x + y)[..|x| + n] == x + y[..n];
      DosAppend(x, y[..n]);
    }
  }

  lemma {:induction false} DosWaits(ws: seq<Out>)
    requires OnlyWaits(ws)
    ensures Dos(ws) == []
  {
    if ws != [] {
      DosWaits(ws[..|ws| - 1]);
    }
  }

  lemma DosInsert(x: seq<Out>, ws: seq<Out>, y: seq<Out>)
    requires OnlyWaits(ws)
    ensures Dos(x + ws + y) == Dos(x + y)
  {
    DosAppend(x + ws, y);
    DosAppend(x, ws);
    DosAppend(x, y);
    DosWaits(ws);
  }

  lemma {:induction false} FlightWaits(b: Items, x: seq<Out>, ws: seq<Out>)
    requires OnlyWaits(ws)
    ensures InFlight(b, x + ws) <= InFlight(b, x)
    decreases |ws|
  {
    if ws == [] {
      assert x + ws == x;
    } else {
      var n := |ws| - 1;
      assert (x + ws)[..|x| + n] == x + ws[..n];
      FlightWaits(b, x, ws[..n]);
    }
  }

  lemma {:induction false} FlightInsert(b: Items, x: seq<Out>, ws: seq<Out>, y: seq<Out>)
    requires OnlyWaits(ws)
    ensures InFlight(b, x + ws + y) <= InFlight(b, x + y)
    decreases |y|
  {
    if y == [] {
      assert x + ws + y == x + ws && x + y == x;
      FlightWaits(b, x, ws);
    } else {
      var n := |y| - 1;
      assert x + ws + y == (x + ws + y[..n]) + [y[n]] && x + y == (x + y[..n]) + [y[n]];
      FlightStep(b, x + ws + y[..n], y[n]);
      FlightStep(b, x + y[..n], y[n]);
      FlightInsert(b, x, ws, y[..n]);
    }
  }

  lemma NeverOverInsert(b: Items, x: seq<Out>, ws: seq<Out>, y: seq<Out>)
    requires OnlyWaits(ws) && NeverOver(b, x + y)
    ensures NeverOver(b, x + ws + y)
  {
    var o, f := x + y, x + ws + y;
    forall n | 0 <= n <= |f|
      ensures InFlight(b, f[..n]) <= MAX_SMEM_FLY
    {
      if n <= |x| {
        assert f[..n] == o[..n];
      } else if n <= |x| + |ws| {
        assert f[..n] == x + ws[..n - |x|] && o[..|x|] == x;
        FlightWaits(b, x, ws[..n - |x|]);
      } else {
        var m := n - |x| - |ws|;
        assert f[..n] == x + ws + y[..m] && o[..|x| + m] == x + y[..m];
        FlightInsert(b, x, ws, y[..m]);
      }
    }
  }

  /** Instructions stand in the output in scheduled order. */
  lemma {:induction false} DosSorted(out: seq<Out>, n: nat, u: nat, v: nat)
    requires Dos(out) == Upto(n) && u < v < |out| && out[u].Do? && out[v].Do?
    ensures out[u].at < out[v].at < n
    decreases |out|
  {
    var m := |out| - 1;
    if !out[m].Do? {
      DosSorted(out[..m], n, u, v);
    } else {
      assert n > 0 && Dos(out[..m]) == Dos(out)[..n - 1] == Upto(n - 1);
      if v < m {
        DosSorted(out[..m], n - 1, u, v);
      } else {
        DosBelow(out[..m], n - 1, u);
        assert Dos(out)[n - 1] == out[m].at;
      }
    }
  }

  lemma {:induction false} DosBelow(out: seq<Out>, n: nat, u: nat)
    requires Dos(out) == Upto(n) && u < |out| && out[u].Do?
    ensures out[u].at < n
    decreases |out|
  {
    var m := |out| - 1;
    if !out[m].Do? {
      DosBelow(out[..m], n, u);
    } else if u < m {
      assert n > 0 && Dos(out[..m]) == Dos(out)[..n - 1] == Upto(n - 1);
      DosBelow(out[..m], n - 1, u);
    } else {
      assert Dos(out)[n - 1] == out[m].at;
    }
  }

  ghost predicate FirstTerm(b: Items, out: seq<Out>, t: nat) {
    && t <= |out| && (forall u :: 0 <= u < t ==> !IsTerm(b, out[u]))
    && (t < |out| ==> IsTerm(b, out[t]))
  }

  lemma StillInTime(b: Items, out: seq<Out>, t: nat, ws: seq<Out>, p: nat)
    requires FirstTerm(b, out, t) && InTime(b, out, p)
    ensures InTime(b, out[..t] + ws + out[t..], p)
  {
    hide IsTerm;
    var f := out[..t] + ws + out[t..];
    var a, w :| 0 <= a < w < |out| && out[a] == Do(p) && out[w] == Wait(b[p].kind)
        && forall u :: 0 <= u <= w ==> !IsTerm(b, out[u]);
    assert w < t;
    assert forall u :: 0 <= u <= w ==> f[u] == out[u];
  }

  lemma TrailingInTime(b: Items, out: seq<Out>, t: nat, ws: seq<Out>, p: nat, c: nat)
    requires FirstTerm(b, out, t) && OnlyWaits(ws) && p < |b| && c < t && out[c] == Do(p) && Wait(b[p].kind) in ws
    ensures InTime(b, out[..t] + ws + out[t..], p)
  {
    var f := out[..t] + ws + out[t..];
    var v :| 0 <= v < |ws| && ws[v] == Wait(b[p].kind);
    assert f[c] == out[c] && f[t + v] == ws[v];
    assert forall u :: t <= u < t + |ws| ==> f[u] == ws[u - t];
    assert forall u :: 0 <= u < t ==> f[u] == out[u];
  }

  lemma OnlyThoseInTime(b: Items, out: seq<Out>, t: nat, ws: seq<Out>, p: nat)
    requires FirstTerm(b, out, t) && p < |b| && InTime(b, out[..t] + ws + out[t..], p) && !InTime(b, out, p)
    requires OnlyWaits(ws)
    ensures Wait(b[p].kind) in ws
  {
    hide IsTerm;
    var f := out[..t] + ws + out[t..];
    var a, w :| 0 <= a < w < |f| && f[a] == Do(p) && f[w] == Wait(b[p].kind)
        && forall u :: 0 <= u <= w ==> !IsTerm(b, f[u]);
    TermStops(b, out, t, ws, w);
    assert forall u :: 0 <= u < t ==> f[u] == out[u];
    assert w >= t;
    assert ws[w - t] == f[w];
  }

  /** Trailing waits stand before the first terminator, and so after every load. */
  lemma LoadInTime(b: Items, out: seq<Out>, t: nat, ws: seq<Out>, p: nat)
    requires Orderly(b) && Kept(b, |b|, out) && FirstTerm(b, out, t) && OnlyWaits(ws) && p < |b| && b[p].load
    ensures InTime(b, out[..t] + ws + out[t..], p) <==> InTime(b, out, p) || Wait(b[p].kind) in ws
  {
    hide NeverOver, MetVector, Met, Tracked, Dos, IsTerm, InTime, Orderly, FirstTerm;
    assert Do(p) in out;
    var c :| 0 <= c < |out| && out[c] == Do(p);
    LoadBeforeTerm(b, out, t, c);
    TermInside(b, out, t);
    if InTime(b, out, p) {
      StillInTime(b, out, t, ws, p);
    } else if Wait(b[p].kind) in ws {
      TrailingInTime(b, out, t, ws, p, c);
    } else if InTime(b, out[..t] + ws + out[t..], p) {
      OnlyThoseInTime(b, out, t, ws, p);
    }
  }

  lemma TermStops(b: Items, out: seq<Out>, t: nat, ws: seq<Out>, w: nat)
    requires FirstTerm(b, out, t) && w < |out| + |ws|
    requires var f := out[..t] + ws + out[t..]; forall u :: 0 <= u <= w ==> !IsTerm(b, f[u])
    ensures w < t + |ws|
  {
    hide IsTerm;
    var f := out[..t] + ws + out[t..];
    assert t < |out| ==> f[t + |ws|] == out[t];
  }

  lemma LoadBeforeTerm(b: Items, out: seq<Out>, t: nat, a: nat)
    requires Dos(out) == Upto(|b|) && Orderly(b) && FirstTerm(b, out, t)
    requires a < |out| && out[a].Do? && out[a].at < |b| && b[out[a].at].load
    ensures a < t
  {
    hide Orderly;
    LoadBeforeTerms(b, out[a].at);
    if t < a {
      DosSorted(out, |b|, t, a);
    }
  }

  // ---- From the block alone ----

  /** Load p ends up with a wait in time: it is neither open nor missed at the end, or a load of its
      kind is open there and calls for a trailing wait. */
  ghost predicate EndsInTime(b: Items, p: nat)
    requires p < |b|
  {
    var end := At(b, |b|);
    (p !in end.open && !Missed(b, |b|, p)) || exists q: nat :: OpenOf(b, end, q, b[p].kind)
  }

  lemma SettledOpen(b: Items, st: State, i: nat, p: nat)
    requires i < |b| && p < |b| && b[p].kind < 3
    ensures p in Settled(b, st, i).open <==> p in st.open && !Asks(b, st, i, b[p].kind)
  {
    hide Asks;
    DroppedOpen(b, st, AllAsks(b, st, i), 3, p);
  }

  lemma {:induction false} DroppedOpen(b: Items, st: State, needs: seq<bool>, k: nat, p: nat)
    requires k <= |needs| && p < |b|
    ensures p in DroppedBelow(b, st, needs, k).open <==> p in st.open && !(b[p].kind < k && needs[b[p].kind])
  {
    if k > 0 {
      DroppedOpen(b, st, needs, k - 1, p);
    }
  }

  /** What becomes of a load over one instruction. */
  lemma OpenStep(b: Items, i: nat, p: nat)
    requires ItemsOk(b) && i < |b| && p < |b|
    ensures p in At(b, i + 1).open ==> (p in At(b, i).open && !Asks(b, At(b, i), i, b[p].kind)) || (p == i && b[i].load)
    ensures p in At(b, i).open && !Asks(b, At(b, i), i, b[p].kind) && !b[i].load ==> p in At(b, i + 1).open
  {
    hide Asks;
    SettledOpen(b, At(b, i), i, p);
    hide Settled;
  }

  lemma {:induction false} OpenBelow(b: Items, i: nat, p: nat)
    requires ItemsOk(b) && i <= |b| && p in At(b, i).open
    ensures p < i && b[p].load
  {
    hide Asks;
    if i > 0 {
      if p < |b| {
        OpenStep(b, i - 1, p);
        if p in At(b, i - 1).open {
          OpenBelow(b, i - 1, p);
        }
      } else {
        OutsideOpen(b, i, p);
      }
    }
  }

  lemma {:induction false} OutsideOpen(b: Items, i: nat, p: nat)
    requires i <= |b| && p >= |b|
    ensures p !in At(b, i).open
  {
    if i > 0 {
      OutsideOpen(b, i - 1, p);
      hide Asks;
      DroppedWithin(b, At(b, i - 1), AllAsks(b, At(b, i - 1), i - 1), 3);
    }
  }

  lemma {:induction false} DroppedWithin(b: Items, st: State, needs: seq<bool>, k: nat)
    requires k <= |needs|
    ensures DroppedBelow(b, st, needs, k).open <= st.open
  {
    if k > 0 {
      DroppedWithin(b, st, needs, k - 1);
    }
  }

  /** After a terminator, what nobody asks for stays open. */
  lemma {:induction false} StaysOpen(b: Items, m: nat, i: nat, p: nat)
    requires Orderly(b) && !LateAsk(b) && m <= i <= |b| && TermBefore(b, m) && p in At(b, m).open
    ensures p in At(b, i).open
    decreases i
  {
    hide At, Asks, Orderly, TermBefore;
    if m < i {
      OrderlyParts(b);
      StaysOpen(b, m, i - 1, p);
      OpenBelow(b, i - 1, p);
      OnlyTerms(b, m, i - 1);
      OpenStep(b, i - 1, p);
    }
  }

  lemma OnlyTerms(b: Items, m: nat, i: nat)
    requires Orderly(b) && m <= i < |b| && TermBefore(b, m)
    ensures TermBefore(b, i) && !b[i].load
  {
  }

  /** A kind waited for after a terminator has nothing open from there on. */
  lemma {:induction false} StaysShut(b: Items, m: nat, i: nat, q: nat)
    requires Orderly(b) && m < i <= |b| && TermBefore(b, m) && q < |b| && Asks(b, At(b, m), m, b[q].kind)
    ensures q !in At(b, i).open
    decreases i
  {
    hide At, Asks;
    OnlyTerms(b, m, i - 1);
    OpenStep(b, i - 1, q);
    if m < i - 1 {
      StaysShut(b, m, i - 1, q);
    }
  }

  /** Every load of the block ends up with a wait in time exactly when nothing after the first
      terminator calls for a wait of a kind with a load still open. */
  lemma AllInTime(b: Items)
    requires Orderly(b)
    ensures !LateAsk(b) <==> forall p: nat :: p < |b| && b[p].load ==> EndsInTime(b, p)
  {
    hide At, Asks;
    if !LateAsk(b) {
      forall p: nat | p < |b| && b[p].load
        ensures EndsInTime(b, p)
      {
        if Missed(b, |b|, p) {
          var m: nat :| m <= |b| && TermBefore(b, m) && p in At(b, m).open;
          StaysOpen(b, m, |b|, p);
        }
        assert p in At(b, |b|).open ==> OpenOf(b, At(b, |b|), p, b[p].kind);
      }
    } else {
      var i: nat, p: nat :| i < |b| && p < |b| && TermBefore(b, i) && p in At(b, i).open
          && Asks(b, At(b, i), i, b[p].kind);
      OpenBelow(b, i, p);
      StaysShut(b, i, |b|, p);
      forall q: nat
        ensures !OpenOf(b, At(b, |b|), q, b[p].kind)
      {
        if q < |b| && b[q].kind == b[p].kind {
          StaysShut(b, i, |b|, q);
        }
      }
      assert Missed(b, |b|, p) && !EndsInTime(b, p);
    }
  }

  /** In particular when no terminator after the first reads a loaded key. */
  lemma QuietEnd(b: Items)
    requires Orderly(b)
    requires forall i: nat, p: nat, k: nat :: i < |b| && TermBefore(b, i) && Reads(b, i, k) ==> !Brings(b, p, k)
    ensures !LateAsk(b)
  {
    hide At;
    if LateAsk(b) {
      var i: nat, p: nat :| i < |b| && p < |b| && TermBefore(b, i) && p in At(b, i).open
          && Asks(b, At(b, i), i, b[p].kind);
      OnlyTerms(b, i, i);
      var q: nat, v: nat :| v < |b[i].sources| && OpenOf(b, At(b, i), q, b[p].kind) && Brings(b, q, b[i].sources[v]);
      SourceRead(b, i, v);
    }
  }

  /** A scalar load of the return address behind a conditional branch: the wait goes between the two
      terminators, and no trailing wait follows. */
  function LateReturn(): Items {
    [Item([], true, SMEM, [30], false, false, false, false), Item([], false, 0, [], false, true, false, false),
     Item([30], false, 0, [], false, true, false, false)]
  }

  lemma LateReturnShape()
    ensures Orderly(LateReturn()) && Brings(LateReturn(), 0, 30) && TermBefore(LateReturn(), 2)
  {
    var b := LateReturn();
    assert forall p: nat, k: nat :: Brings(b, p, k) ==> p == 0 && k == 30;
    assert forall r: nat, k: nat :: Reads(b, r, k) ==> r == 2;
    assert b[1].term;
  }

  lemma LateReturnState()
    ensures At(LateReturn(), 2) == State({0}, false, 1)
  {
    var b := LateReturn();
    hide At;
    AtStart(b);
    Silent(b, At(b, 0), 0);
    AtNext(b, 0);
    Silent(b, At(b, 1), 1);
    AtNext(b, 1);
    assert At(b, 1) == State({0}, false, 1);
  }

  lemma AtStart(b: Items)
    ensures At(b, 0) == State({}, false, 0)
  {
  }

  /** An instruction that reads nothing and is no barrier calls for nothing. */
  lemma Silent(b: Items, st: State, i: nat)
    requires i < |b| && b[i].sources == [] && !b[i].barrier && !b[i].afterStores
    ensures Settled(b, st, i) == st
  {
    SettledNothing(b, st, i);
  }

  lemma LateReturnAsks()
    ensures Orderly(LateReturn()) && LateAsk(LateReturn())
  {
    hide Orderly, Brings, TermBefore, At;
    var b := LateReturn();
    LateReturnShape();
    LateReturnState();
    assert OpenOf(b, At(b, 2), 0, SMEM) && Brings(b, 0, b[2].sources[0]);
    assert Asks(b, At(b, 2), 2, SMEM);
  }

  lemma SettledNothing(b: Items, st: State, i: nat)
    requires i < |b| && !Asks(b, st, i, 0) && !Asks(b, st, i, 1) && !Asks(b, st, i, 2)
    ensures Settled(b, st, i) == st
  {
    hide Asks;
    NothingDropped(b, st, AllAsks(b, st, i), 3);
  }

  lemma {:induction false} NothingDropped(b: Items, st: State, needs: seq<bool>, k: nat)
    requires k <= |needs| && forall j :: 0 <= j < |needs| ==> !needs[j]
    ensures DroppedBelow(b, st, needs, k) == st
  {
    if k > 0 {
      NothingDropped(b, st, needs, k - 1);
    }
  }

  // ---- Step 4 ----

  method FindTerm(b: Items, out: seq<Out>) returns (t: nat)
    ensures FirstTerm(b, out, t)
  {
    for i: nat := 0 to |out|
      invariant forall u :: 0 <= u < i ==> !IsTerm(b, out[u])
    {
      if out[i].Do? && out[i].at < |b| && b[out[i].at].term {
        return i;
      }
    }
    t := |out|;
  }

  /** One wait per kind of load that nobody has waited for. */
  method TrailingWaits(b: Items, waited: seq<bool>) returns (ws: seq<Out>)
    requires ItemsOk(b) && |waited| == |b|
    ensures OnlyWaits(ws)
    ensures forall k: nat :: k < 3 ==>
              (Wait(k) in ws <==> exists p: nat :: p < |b| && b[p].load && !waited[p] && b[p].kind == k)
  {
    var trailing := [false, false, false];
    for p: nat := 0 to |b|
      invariant |trailing| == 3
      invariant forall k: nat :: k < 3 ==>
                  (trailing[k] <==> exists q: nat :: q < p && b[q].load && !waited[q] && b[q].kind == k)
    {
      if b[p].load && !waited[p] {
        trailing := trailing[b[p].kind := true];
      }
    }
    ws := [];
    for k: nat := 0 to 3
      invariant OnlyWaits(ws) && forall j: nat :: Wait(j) in ws <==> j < k && trailing[j]
    {
      if trailing[k] {
        ws := ws + [Wait(k)];
      }
    }
  }

  /** Step 4 of schedule_block.  The instructions come out unchanged and in order; reads of vector
      loads always have their wait; with each key loaded once and not read before, all reads do; no
      more than ten scalar loads are ever out; and every load is waited for before the first
      terminator exactly when nothing after it calls for a wait of a kind with a load still open. */
  method InsertWaits(b: Items) returns (out: seq<Out>)
    requires ItemsOk(b)
    ensures Dos(out) == Upto(|b|)
    ensures MetVector(b, |b|, out)
    ensures Tracked(b) ==> Met(b, |b|, out)
    ensures StoresMet(b, |b|, out) && (Tracked(b) ==> BarriersMet(b, |b|, out))
    ensures NeverOver(b, out)
    ensures Orderly(b) ==> (!LateAsk(b) <==> forall p: nat :: p < |b| && b[p].load ==> InTime(b, out, p))
  {
    hide Fenced, StoresMet, BarriersMet;
    hide ItemsOk, PendingOk, Sound, Tracked, LoadMap, NeverOver, InFlight, Met, MetVector, Dos, InTime, FirstTerm,
         OnlyWaits, Orderly, LateAsk, EndsInTime, Agrees, Timely, At;
    var vload := MapLoads(b);
    var ins := new Inserter(b, vload);
    NothingYet(b);
    NothingOpen(b);
    ins.InsertAll();
    var t := FindTerm(b, ins.out);
    var ws := TrailingWaits(b, ins.waited);
    TermInside(b, ins.out, t);
    var x, y := ins.out[..t], ins.out[t..];
    assert x + y == ins.out;
    out := x + ws + y;
    DosInsert(x, ws, y);
    NeverOverInsert(b, x, ws, y);
    MetInsert(b, x, ws, y);
    FencedInsert(b, ins.hasStore, x, ws, y);
    if Orderly(b) {
      forall p: nat | p < |b| && b[p].load
        ensures InTime(b, out, p) <==> EndsInTime(b, p)
      {
        LoadInTime(b, ins.out, t, ws, p);
        EndTimely(b, ins.waited, ins.pending, ins.hasStore, ins.fly, ins.out, ws, p);
      }
      AllInTime(b);
    }
  }

  lemma {:induction false} EndTimely(b: Items, waited: seq<bool>, pending: set<nat>, hasStore: bool, fly: nat,
      out: seq<Out>, ws: seq<Out>, p: nat)
    requires ItemsOk(b) && p < |b| && b[p].load && |waited| == |b|
    requires Agrees(b, |b|, At(b, |b|), waited, [false, false, false], pending, hasStore, fly)
    requires Timely(b, |b|, |b|, At(b, |b|), out)
    requires forall k: nat :: k < 3 ==>
               (Wait(k) in ws <==> exists q: nat :: q < |b| && b[q].load && !waited[q] && b[q].kind == k)
    ensures InTime(b, out, p) || Wait(b[p].kind) in ws <==> EndsInTime(b, p)
  {
    hide InTime, Missed, At;
    var end := At(b, |b|);
    assert b[p].kind < 3;
    if q: nat :| q < |b| && b[q].load && !waited[q] && b[q].kind == b[p].kind {
      assert OpenOf(b, end, q, b[p].kind);
    }
    if q: nat :| OpenOf(b, end, q, b[p].kind) {
      assert q < |b| && b[q].load && !waited[q];
    }
  }

  lemma TermInside(b: Items, out: seq<Out>, t: nat)
    requires FirstTerm(b, out, t)
    ensures t <= |out|
  {
  }

  lemma MetInsert(b: Items, x: seq<Out>, ws: seq<Out>, y: seq<Out>)
    ensures MetVector(b, |b|, x + y) ==> MetVector(b, |b|, x + ws + y)
    ensures Met(b, |b|, x + y) ==> Met(b, |b|, x + ws + y)
  {
    hide Between, Reads;
    forall p: nat, k: nat, r: nat | Between(x + y, p, k, r)
      ensures Between(x + ws + y, p, k, r)
    {
      InsertBetween(x, ws, y, p, k, r);
    }
  }

  lemma FencedInsert(b: Items, hasStore: bool, x: seq<Out>, ws: seq<Out>, y: seq<Out>)
    requires Fenced(b, |b|, hasStore, x + y)
    ensures StoresMet(b, |b|, x + ws + y) && (Tracked(b) ==> BarriersMet(b, |b|, x + ws + y))
  {
    hide Between, Tracked;
    forall p: nat, k: nat, r: nat | Between(x + y, p, k, r)
      ensures Between(x + ws + y, p, k, r)
    {
      InsertBetween(x, ws, y, p, k, r);
    }
  }

  lemma NothingYet(b: Items)
    ensures Kept(b, 0, []) && InFlight(b, []) == 0 && PendingOk(b, 0, {}, []) && Fenced(b, 0, false, [])
    ensures Sound(b, 0, seq(|b|, _ => false), [false, false, false], [])
  {
  }

  lemma NothingOpen(b: Items)
    ensures Agrees(b, 0, At(b, 0), seq(|b|, _ => false), [false, false, false], {}, false, 0)
    ensures Timely(b, 0, 0, At(b, 0), [])
  {
    hide InTime, Missed;
    AtStart(b);
  }
}
