/** The dependence graph of one block, built by tracking the last writer, the last reader and the
    last store. */
module ScheduleDag {
  import FiniteSets
  import opened Permutations

  const MAX_DEPS: nat := 32
  const MAX_BARRIERS: nat := 64

  /** A register access in the order the builder looks at it. */
  datatype Access = Use(key: nat) | Def(key: nat)

  /** Pseudo-operations open a block, terminators close it, barriers split it into epochs. */
  datatype Kind = Pseudo | Plain | Barrier | Term

  datatype Inst = Inst(kind: Kind, acc: seq<Access>, load: bool, store: bool, latency: nat)

  type Block = seq<Inst>

  predicate Reads(x: Inst, k: nat) {
    Use(k) in x.acc
  }

  predicate Writes(x: Inst, k: nat) {
    Def(k) in x.acc
  }

  /** k is read before the instruction defines it, if it does. */
  ghost predicate ReadsFirst(x: Inst, k: nat) {
    exists p :: 0 <= p < |x.acc| && x.acc[p] == Use(k) && Def(k) !in x.acc[..p]
  }

  /** A key is looked at again after the instruction defined it. */
  ghost predicate Revisits(x: Inst) {
    exists p, q :: 0 <= p < q < |x.acc| && x.acc[p].Def? && x.acc[q].key == x.acc[p].key
  }

  /** Pseudo-operations first, terminators last, memory operations in between. */
  ghost predicate Shape(b: Block) {
    && (forall i, j :: 0 <= i < j < |b| ==>
          (b[j].kind == Pseudo ==> b[i].kind == Pseudo) && (b[i].kind == Term ==> b[j].kind == Term))
    && (forall i :: 0 <= i < |b| && (b[i].load || b[i].store) ==> b[i].kind == Plain && !(b[i].load && b[i].store))
  }

  /** No barrier in [i, j). */
  ghost predicate SameEpoch(b: Block, i: nat, j: nat) {
    forall m :: i <= m < j && m < |b| ==> b[m].kind != Barrier
  }

  // ---- Edges ----

  datatype Graph = Graph(succs: seq<seq<nat>>, over: seq<bool>)

  ghost predicate GraphOk(g: Graph, n: nat) {
    && |g.succs| == n && |g.over| == n
    && (forall x, s :: 0 <= x < n && 0 <= s < |g.succs[x]| ==> g.succs[x][s] < n)
    && (forall x, s, t :: 0 <= x < n && 0 <= s < t < |g.succs[x]| ==> g.succs[x][s] != g.succs[x][t])
    && (forall x :: 0 <= x < n ==> |g.succs[x]| <= MAX_DEPS)
  }

  predicate Edge(g: Graph, x: nat, y: nat) {
    x < |g.succs| && y in g.succs[x]
  }

  /** The list of x was full, with earlier instructions, when y came. */
  predicate Refused(g: Graph, x: nat, y: nat) {
    && x < |g.over| && y < |g.over| && g.over[x] && g.over[y]
    && x < |g.succs| && |g.succs[x]| == MAX_DEPS && forall s :: 0 <= s < |g.succs[x]| ==> g.succs[x][s] < y
  }

  /** The edge is there, or it was refused and both ends are marked. */
  predicate Linked(g: Graph, x: nat, y: nat) {
    Edge(g, x, y) || Refused(g, x, y)
  }

  /** No edge leads past y. */
  ghost predicate UpTo(g: Graph, y: nat) {
    forall u: nat, v: nat :: Edge(g, u, v) ==> v <= y
  }

  function Added(g: Graph, x: nat, y: nat): Graph
    requires x < |g.succs| == |g.over| && y < |g.over|
  {
    if y in g.succs[x] then g
    else if |g.succs[x]| < MAX_DEPS then g.(succs := g.succs[x := g.succs[x] + [y]])
    else g.(over := g.over[x := true][y := true])
  }

  ghost predicate Grown(g: Graph, h: Graph) {
    && |h.succs| == |g.succs| && |h.over| == |g.over|
    && (forall x: nat, y: nat :: Edge(g, x, y) ==> Edge(h, x, y))
    && (forall x :: 0 <= x < |g.over| && g.over[x] ==> h.over[x])
    && (forall x :: 0 <= x < |g.succs| && |g.succs[x]| == MAX_DEPS ==> h.succs[x] == g.succs[x])
  }

  lemma AddedEdges(g: Graph, x: nat, y: nat, n: nat)
    requires GraphOk(g, n) && x < n && y < n
    ensures forall u: nat, v: nat :: Edge(Added(g, x, y), u, v) ==> Edge(g, u, v) || (u == x && v == y)
  {
  }

  lemma AddedLinked(g: Graph, x: nat, y: nat, n: nat)
    requires GraphOk(g, n) && x < n && y < n && UpTo(g, y)
    ensures Linked(Added(g, x, y), x, y)
  {
    var h := Added(g, x, y);
    if y !in g.succs[x] && |g.succs[x]| < MAX_DEPS {
      assert h.succs[x][|g.succs[x]|] == y;
    } else if y !in g.succs[x] {
      forall s | 0 <= s < |g.succs[x]|
        ensures g.succs[x][s] < y
      {
        assert Edge(g, x, g.succs[x][s]);
      }
      assert Refused(h, x, y);
    }
  }

  lemma AddedFacts(g: Graph, x: nat, y: nat, n: nat)
    requires GraphOk(g, n) && x < n && y < n && UpTo(g, y)
    ensures GraphOk(Added(g, x, y), n) && Grown(g, Added(g, x, y))
    ensures Linked(Added(g, x, y), x, y) && UpTo(Added(g, x, y), y)
    ensures forall u: nat, v: nat :: Edge(Added(g, x, y), u, v) ==> Edge(g, u, v) || (u == x && v == y)
  {
    hide Refused;
    AddedEdges(g, x, y, n);
    AddedLinked(g, x, y, n);
    var h := Added(g, x, y);
    forall u: nat, v: nat | Edge(g, u, v)
      ensures Edge(h, u, v)
    {
      var s :| 0 <= s < |g.succs[u]| && g.succs[u][s] == v;
      assert h.succs[u][s] == v;
    }
  }

  lemma GrownLinked(g: Graph, h: Graph, x: nat, y: nat)
    requires Grown(g, h) && Linked(g, x, y)
    ensures Linked(h, x, y)
  {
  }

  lemma GrownTwice(f: Graph, g: Graph, h: Graph)
    requires Grown(f, g) && Grown(g, h)
    ensures Grown(f, h)
  {
  }

  // ---- Tracking ----

  /** The graph so far, with the last writer and the last reader of each key. */
  datatype Tables = Tables(g: Graph, defs: map<nat, nat>, uses: map<nat, nat>)

  ghost predicate TablesIn(t: Tables, n: nat) {
    GraphOk(t.g, n) && (forall k :: k in t.defs ==> t.defs[k] < n) && (forall k :: k in t.uses ==> t.uses[k] < n)
  }

  function LinkDef(t: Tables, k: nat, i: nat): Graph
    requires i < |t.g.succs| == |t.g.over| && (k in t.defs ==> t.defs[k] < |t.g.succs|)
  {
    if k in t.defs then Added(t.g, t.defs[k], i) else t.g
  }

  function AfterUse(t: Tables, k: nat, i: nat): Tables
    requires i < |t.g.succs| == |t.g.over| && (k in t.defs ==> t.defs[k] < |t.g.succs|)
  {
    Tables(LinkDef(t, k, i), t.defs, t.uses[k := i])
  }

  /** The last reader precedes a new writer, unless it is the last writer or the new writer itself. */
  predicate ReaderCounts(t: Tables, k: nat, i: nat) {
    k in t.uses && (k in t.defs ==> t.uses[k] != t.defs[k]) && t.uses[k] != i
  }

  function LinkBoth(t: Tables, k: nat, i: nat): Graph
    requires i < |t.g.succs| == |t.g.over| && (k in t.defs ==> t.defs[k] < |t.g.succs|)
    requires (k in t.uses ==> t.uses[k] < |t.g.succs|)
  {
    if ReaderCounts(t, k, i) then Added(LinkDef(t, k, i), t.uses[k], i) else LinkDef(t, k, i)
  }

  function AfterDef(t: Tables, k: nat, i: nat): Tables
    requires i < |t.g.succs| == |t.g.over| && (k in t.defs ==> t.defs[k] < |t.g.succs|)
    requires (k in t.uses ==> t.uses[k] < |t.g.succs|)
  {
    Tables(LinkBoth(t, k, i), t.defs[k := i], t.uses - {k})
  }

  function AfterAccess(t: Tables, a: Access, i: nat): Tables
    requires i < |t.g.succs| == |t.g.over| && (a.key in t.defs ==> t.defs[a.key] < |t.g.succs|)
    requires (a.key in t.uses ==> t.uses[a.key] < |t.g.succs|)
  {
    if a.Use? then AfterUse(t, a.key, i) else AfterDef(t, a.key, i)
  }

  // ---- What the tables say about the instructions looked at so far ----

  /** d is the last writer of k in the current epoch of b. */
  ghost predicate IsLastDef(b: Block, k: nat, d: nat) {
    d < |b| && Writes(b[d], k) && SameEpoch(b, d, |b|) && forall m :: d < m < |b| ==> !Writes(b[m], k)
  }

  ghost predicate NoDef(b: Block, k: nat) {
    forall m: nat :: m < |b| && SameEpoch(b, m, |b|) ==> !Writes(b[m], k)
  }

  /** r is the last reader of k in the current epoch, and k was not written after it. */
  ghost predicate IsLastUse(b: Block, k: nat, r: nat) {
    r < |b| && Reads(b[r], k) && SameEpoch(b, r, |b|) && forall m :: r < m < |b| ==> !Writes(b[m], k) && !Reads(b[m], k)
  }

  /** Every reader of k in the current epoch has a writer at or after it. */
  ghost predicate NoUse(b: Block, k: nat) {
    forall r: nat :: r < |b| && Reads(b[r], k) && SameEpoch(b, r, |b|) ==> exists m :: r <= m < |b| && Writes(b[m], k)
  }

  ghost predicate KeyOk(b: Block, t: Tables, k: nat) {
    && (if k in t.defs then IsLastDef(b, k, t.defs[k]) else NoDef(b, k))
    && (if k in t.uses then IsLastUse(b, k, t.uses[k]) else NoUse(b, k))
  }

  // ---- What the graph must contain ----

  /** Read or write after the last write. */
  ghost predicate NeedsFlow(b: Block, k: nat, d: nat, j: nat) {
    && d < j < |b| && SameEpoch(b, d, j) && b[j].kind != Barrier
    && Writes(b[d], k) && (Reads(b[j], k) || Writes(b[j], k)) && forall m :: d < m < j ==> !Writes(b[m], k)
  }

  /** Write after the last read, when there was one. */
  ghost predicate NeedsAnti(b: Block, k: nat, r: nat, j: nat) {
    && r < j < |b| && SameEpoch(b, r, j) && b[j].kind != Barrier
    && Reads(b[r], k) && Writes(b[j], k) && !ReadsFirst(b[j], k)
    && !Writes(b[r], k) && forall m :: r < m < j ==> !Writes(b[m], k) && !Reads(b[m], k)
  }

  ghost predicate RegisterEdges(b: Block, g: Graph) {
    && (forall k: nat, d: nat, j: nat :: NeedsFlow(b, k, d, j) ==> Linked(g, d, j))
    && (forall k: nat, r: nat, j: nat :: NeedsAnti(b, k, r, j) ==> Linked(g, r, j))
    && (forall j: nat :: j < |b| && b[j].kind != Barrier && Revisits(b[j]) ==> Linked(g, j, j))
  }

  /** y must wait for x: a read or write after the last write, a write after the last read, a
      memory operation, or a key looked at again. */
  ghost predicate Required(b: Block, x: nat, y: nat) {
    || (exists k: nat :: NeedsFlow(b, k, x, y))
    || (exists k: nat :: NeedsAnti(b, k, x, y))
    || NeedsMemory(b, x, y)
    || (x == y < |b| && b[x].kind != Barrier && Revisits(b[x]))
  }

  ghost function Followers(b: Block, x: nat): set<nat> {
    set y: nat | y < |b| && Required(b, x, y)
  }

  /** Some instruction has more followers than its list holds. */
  ghost predicate TooMany(b: Block) {
    exists x: nat :: x < |b| && |Followers(b, x)| > MAX_DEPS
  }

  /** A short block never has. */
  lemma ShortBlock(b: Block)
    requires |b| <= MAX_DEPS
    ensures !TooMany(b)
  {
    hide Required;
    forall x: nat | x < |b|
      ensures |Followers(b, x)| <= MAX_DEPS
    {
      FiniteSets.BelowSize(Followers(b, x), |b|);
    }
  }

  /** The followers of x in front of y. */
  ghost function Ahead(b: Block, x: nat, y: nat): set<nat> {
    set z | z in Followers(b, x) && z < y
  }

  /** x follows an instruction that has a full list of followers in front of x. */
  ghost predicate TooLate(b: Block, x: nat) {
    exists u: nat :: u < |b| && Required(b, u, x) && |Ahead(b, u, x)| >= MAX_DEPS
  }

  /** x has too many followers, or comes too late for the list of an instruction it follows. */
  ghost predicate Overfull(b: Block, x: nat) {
    x < |b| && (|Followers(b, x)| > MAX_DEPS || TooLate(b, x))
  }

  /** The marks that the block leaves. */
  ghost function Marks(b: Block): (m: seq<bool>)
    ensures |m| == |b| && forall x :: 0 <= x < |b| ==> (m[x] <==> Overfull(b, x))
  {
    seq(|b|, x requires 0 <= x < |b| => Overfull(b, x))
  }

  /** Only required edges are there, and a mark means that a list was too short. */
  ghost predicate Justified(b: Block, g: Graph) {
    && (forall x: nat, y: nat :: Edge(g, x, y) ==> Required(b, x, y))
    && (forall x: nat :: x < |g.over| && g.over[x] ==> Overfull(b, x))
  }

  /** Required edges go forward between instructions that are no barriers; an instruction waits for
      itself only if it revisits a key. */
  lemma RequiredForward(b: Block, x: nat, y: nat)
    requires Shape(b) && Required(b, x, y)
    ensures x <= y < |b| && b[x].kind != Barrier && b[y].kind != Barrier && (x == y ==> Revisits(b[x]))
  {
    if k: nat :| NeedsFlow(b, k, x, y) {
      assert b[x].kind != Barrier;
    } else if k: nat :| NeedsAnti(b, k, x, y) {
      assert b[x].kind != Barrier;
    }
  }

  /** Everything required in b is required in c. */
  ghost predicate Extends(b: Block, c: Block) {
    |b| <= |c| && forall x: nat, y: nat :: Required(b, x, y) ==> Required(c, x, y)
  }

  lemma JustifiedMore(b: Block, c: Block, g: Graph)
    requires Justified(b, g) && Extends(b, c)
    ensures Justified(c, g)
  {
    hide Required, Edge;
    forall x: nat | x < |g.over| && g.over[x]
      ensures Overfull(c, x)
    {
      OverfullMore(b, c, x);
    }
  }

  lemma OverfullMore(b: Block, c: Block, x: nat)
    requires Overfull(b, x) && Extends(b, c)
    ensures Overfull(c, x)
  {
    hide Required;
    if |Followers(b, x)| > MAX_DEPS {
      FiniteSets.SubsetSize(Followers(b, x), Followers(c, x));
    } else {
      var u: nat :| u < |b| && Required(b, u, x) && |Ahead(b, u, x)| >= MAX_DEPS;
      FiniteSets.SubsetSize(Ahead(b, u, x), Ahead(c, u, x));
    }
  }

  lemma JustifiedUpTo(b: Block, g: Graph, y: nat)
    requires Justified(b, g) && |b| <= y + 1
    ensures UpTo(g, y)
  {
    RequiredInside(b);
    hide Required;
  }

  lemma {:induction false} DistinctWithin(s: seq<nat>, t: set<nat>)
    requires forall i :: 0 <= i < |s| ==> s[i] in t
    requires forall i, j :: 0 <= i < j < |s| ==> s[i] != s[j]
    ensures |s| <= |t|
  {
    if s != [] {
      var m := |s| - 1;
      DistinctWithin(s[..m], t - {s[m]});
    }
  }

  lemma ListRequired(b: Block, g: Graph, x: nat, n: nat)
    requires Justified(b, g) && GraphOk(g, n) && x < n && forall u: nat, v: nat :: Required(b, u, v) ==> v < |b|
    ensures forall s :: 0 <= s < |g.succs[x]| ==> g.succs[x][s] in Followers(b, x)
  {
    hide Required;
    forall s | 0 <= s < |g.succs[x]|
      ensures g.succs[x][s] in Followers(b, x)
    {
      assert Edge(g, x, g.succs[x][s]);
    }
  }

  /** Adding a required edge to the last instruction leaves only required ones; when the list is full
      there are too many, and the last comes too late. */
  lemma AddJustified(b: Block, g: Graph, x: nat, y: nat, n: nat)
    requires Justified(b, g) && GraphOk(g, n) && x < |b| <= n && y == |b| - 1 && Required(b, x, y)
    requires forall u: nat, v: nat :: Required(b, u, v) ==> v < |b|
    ensures Justified(b, Added(g, x, y))
  {
    hide Required;
    var h := Added(g, x, y);
    JustifiedUpTo(b, g, y);
    AddedFacts(g, x, y, n);
    if y !in g.succs[x] && |g.succs[x]| >= MAX_DEPS {
      ListRequired(b, g, x, n);
      DistinctWithin(g.succs[x] + [y], Followers(b, x));
      DistinctWithin(g.succs[x], Ahead(b, x, y));
      hide Followers, Ahead;
      assert Overfull(b, x) && Overfull(b, y);
    } else {
      assert h.over == g.over;
    }
  }

  lemma RequiredInside(b: Block)
    ensures forall u: nat, v: nat :: Required(b, u, v) ==> v < |b|
  {
  }

  /** Everything the builder knows about b, in a graph over n nodes. */
  ghost predicate Known(b: Block, t: Tables, n: nat) {
    && |b| <= n && TablesIn(t, n)
    && (forall k: nat :: KeyOk(b, t, k)) && RegisterEdges(b, t.g) && Justified(b, t.g)
  }

  // ---- One more access of the last instruction ----

  /** c is b with one more access looked at in its last instruction. */
  ghost predicate Further(b: Block, c: Block, a: Access) {
    && |c| == |b| > 0 && (forall m :: 0 <= m < |b| - 1 ==> c[m] == b[m])
    && var n := |b| - 1; b[n].kind != Barrier && c[n] == b[n].(acc := b[n].acc + [a])
  }

  lemma FurtherFacts(b: Block, c: Block, a: Access)
    requires Further(b, c, a)
    ensures forall m, k :: 0 <= m < |b| ==> (Reads(c[m], k) <==> Reads(b[m], k) || (m == |b| - 1 && a == Use(k)))
    ensures forall m, k :: 0 <= m < |b| ==> (Writes(c[m], k) <==> Writes(b[m], k) || (m == |b| - 1 && a == Def(k)))
    ensures forall m :: 0 <= m < |b| ==> c[m].kind == b[m].kind
    ensures forall i: nat, j: nat :: SameEpoch(c, i, j) == SameEpoch(b, i, j)
  {
    forall i: nat, j: nat
      ensures SameEpoch(c, i, j) == SameEpoch(b, i, j)
    {
      assert forall m :: 0 <= m < |b| ==> c[m].kind == b[m].kind;
    }
  }

  lemma FurtherRevisits(b: Block, c: Block, a: Access)
    requires Further(b, c, a)
    ensures var n := |b| - 1; Revisits(c[n]) <==> Revisits(b[n]) || Writes(b[n], a.key)
  {
    var n := |b| - 1;
    var u, v := b[n].acc, c[n].acc;
    if Revisits(c[n]) && !Revisits(b[n]) {
      var p, q :| 0 <= p < q < |v| && v[p].Def? && v[q].key == v[p].key;
      assert q == |u| && u[p] == Def(a.key);
    }
    if Revisits(b[n]) {
      var p, q :| 0 <= p < q < |u| && u[p].Def? && u[q].key == u[p].key;
      assert v[p] == u[p] && v[q] == u[q];
    }
    if Writes(b[n], a.key) {
      var p :| 0 <= p < |u| && u[p] == Def(a.key);
      assert v[p] == u[p] && v[|u|] == a;
    }
  }

  lemma FurtherFirst(b: Block, c: Block, a: Access, k: nat)
    requires Further(b, c, a)
    ensures var n := |b| - 1; ReadsFirst(c[n], k) <==> ReadsFirst(b[n], k) || (a == Use(k) && !Writes(b[n], k))
  {
    var n := |b| - 1;
    var u, v := b[n].acc, c[n].acc;
    assert v[|u|] == a && v[..|u|] == u;
    if ReadsFirst(c[n], k) {
      var p :| 0 <= p < |v| && v[p] == Use(k) && Def(k) !in v[..p];
      if p < |u| {
        assert u[p] == v[p] && u[..p] == v[..p];
      }
    }
    if ReadsFirst(b[n], k) {
      var p :| 0 <= p < |u| && u[p] == Use(k) && Def(k) !in u[..p];
      assert v[p] == u[p] && v[..p] == u[..p];
    }
  }

  lemma FirstReads(x: Inst, k: nat)
    ensures ReadsFirst(x, k) ==> Reads(x, k)
    ensures Reads(x, k) && !Writes(x, k) ==> ReadsFirst(x, k)
  {
    if Reads(x, k) && !Writes(x, k) {
      var p :| 0 <= p < |x.acc| && x.acc[p] == Use(k);
      assert Def(k) !in x.acc[..p];
    }
  }

  lemma NeedsFurther(b: Block, c: Block, a: Access, k: nat, x: nat, y: nat)
    requires Further(b, c, a)
    ensures NeedsFlow(b, k, x, y) ==> NeedsFlow(c, k, x, y)
    ensures NeedsAnti(b, k, x, y) ==> NeedsAnti(c, k, x, y)
  {
    FurtherFacts(b, c, a);
    FurtherFirst(b, c, a, k);
    hide SameEpoch, ReadsFirst;
  }

  /** One more access of the last instruction takes no requirement away. */
  lemma FurtherExtends(b: Block, c: Block, a: Access)
    requires Further(b, c, a)
    ensures Extends(b, c)
  {
    hide SameEpoch, ReadsFirst, Revisits, Reads, Writes, NeedsFlow, NeedsAnti;
    FurtherFacts(b, c, a);
    FurtherRevisits(b, c, a);
    forall x: nat, y: nat | Required(b, x, y)
      ensures Required(c, x, y)
    {
      if k: nat :| NeedsFlow(b, k, x, y) {
        NeedsFurther(b, c, a, k, x, y);
      } else if k: nat :| NeedsAnti(b, k, x, y) {
        NeedsFurther(b, c, a, k, x, y);
      } else if NeedsMemory(b, x, y) {
        assert NeedsMemory(c, x, y);
      }
    }
  }

  lemma KeyStep(b: Block, c: Block, a: Access, t: Tables, k: nat)
    requires Further(b, c, a) && KeyOk(b, t, k)
    requires |b| <= |t.g.succs| == |t.g.over| && (a.key in t.defs ==> t.defs[a.key] < |b|)
    requires (a.key in t.uses ==> t.uses[a.key] < |b|)
    ensures KeyOk(c, AfterAccess(t, a, |b| - 1), k)
  {
    hide Added, SameEpoch;
    FurtherFacts(b, c, a);
    EmptyRange(c, |b| - 1);
    var t' := AfterAccess(t, a, |b| - 1);
    if k !in t'.uses {
      forall r: nat | r < |c| && Reads(c[r], k) && SameEpoch(c, r, |c|)
        ensures exists m :: r <= m < |c| && Writes(c[m], k)
      {
        if a == Def(k) {
          assert Writes(c[|b| - 1], k);
        } else {
          assert Reads(b[r], k);
          var m :| r <= m < |b| && Writes(b[m], k);
          assert Writes(c[m], k);
        }
      }
    }
  }

  lemma EmptyRange(c: Block, n: nat)
    requires n < |c| && c[n].kind != Barrier
    ensures SameEpoch(c, n, n + 1)
  {
  }

  lemma AccessGraph(b: Block, a: Access, t: Tables, n: nat)
    requires Known(b, t, n) && |b| > 0 && b[|b| - 1].kind != Barrier
    ensures var i := |b| - 1; var g := AfterAccess(t, a, i).g;
            && GraphOk(g, n) && Grown(t.g, g)
            && (a.key in t.defs ==> t.defs[a.key] < |b| && Linked(g, t.defs[a.key], i))
            && (a.Def? && ReaderCounts(t, a.key, i) ==> t.uses[a.key] < |b| && Linked(g, t.uses[a.key], i))
  {
    hide Added, GraphOk, Grown, Linked, RegisterEdges, Justified, Edge, UpTo;
    var i := |b| - 1;
    var k := a.key;
    assert KeyOk(b, t, k);
    KnownParts(b, t, n);
    GrownSelf(t.g);
    JustifiedUpTo(b, t.g, i);
    if k in t.defs {
      AddedFacts(t.g, t.defs[k], i, n);
    }
    var g1 := LinkDef(t, k, i);
    if a.Def? && ReaderCounts(t, k, i) {
      AddedFacts(g1, t.uses[k], i, n);
      GraphSize(g1, n);
      var g2 := Added(g1, t.uses[k], i);
      GrownTwice(t.g, g1, g2);
      if k in t.defs {
        GrownLinked(g1, g2, t.defs[k], i);
      }
    }
  }

  lemma GrownSelf(g: Graph)
    ensures Grown(g, g)
  {
  }

  lemma KnownParts(b: Block, t: Tables, n: nat)
    requires Known(b, t, n)
    ensures GraphOk(t.g, n) && |t.g.succs| == |t.g.over| == n && |b| <= n && Justified(b, t.g)
  {
  }

  /** The read or write that the new access makes has its edge from the last write. */
  lemma FlowStep(b: Block, c: Block, a: Access, t: Tables, n: nat, k: nat, d: nat, j: nat)
    requires Known(b, t, n) && Further(b, c, a) && NeedsFlow(c, k, d, j)
    ensures |b| <= n && Linked(AfterAccess(t, a, |b| - 1).g, d, j)
  {
    hide Added, Linked, SameEpoch, Grown, GraphOk, Edge, Justified, RegisterEdges;
    FurtherFacts(b, c, a);
    KnownParts(b, t, n);
    LastInside(b, t, n, a.key);
    AccessGraph(b, a, t, n);
    var g := AfterAccess(t, a, |b| - 1).g;
    if NeedsFlow(b, k, d, j) {
      RegisterEdge(b, t, n, k, d, j);
      GrownLinked(t.g, g, d, j);
    } else {
      assert j == |b| - 1 && a.key == k && !Writes(b[j], k) && Writes(b[d], k);
      assert KeyOk(b, t, k);
      EpochExtends(b, d);
    }
  }

  lemma RegisterEdge(b: Block, t: Tables, n: nat, k: nat, d: nat, j: nat)
    requires Known(b, t, n)
    ensures NeedsFlow(b, k, d, j) ==> Linked(t.g, d, j)
    ensures NeedsAnti(b, k, d, j) ==> Linked(t.g, d, j)
    ensures j < |b| && b[j].kind != Barrier && Revisits(b[j]) ==> Linked(t.g, j, j)
  {
    hide NeedsFlow, NeedsAnti, Linked;
  }

  /** The last instruction is no barrier, so an epoch reaching it reaches past it. */
  lemma EpochExtends(b: Block, d: nat)
    requires |b| > 0 && b[|b| - 1].kind != Barrier && SameEpoch(b, d, |b| - 1)
    ensures SameEpoch(b, d, |b|)
  {
  }

  lemma AntiStep(b: Block, c: Block, a: Access, t: Tables, n: nat, k: nat, r: nat, j: nat)
    requires Known(b, t, n) && Further(b, c, a) && NeedsAnti(c, k, r, j)
    ensures |b| <= n && Linked(AfterAccess(t, a, |b| - 1).g, r, j)
  {
    hide Added, Linked, SameEpoch, Grown, GraphOk, Edge, Justified, RegisterEdges;
    FurtherFacts(b, c, a);
    KnownParts(b, t, n);
    LastInside(b, t, n, a.key);
    AccessGraph(b, a, t, n);
    var g := AfterAccess(t, a, |b| - 1).g;
    FurtherFirst(b, c, a, k);
    FirstReads(b[|b| - 1], k);
    FirstReads(b[r], k);
    hide ReadsFirst;
    if NeedsAnti(b, k, r, j) {
      RegisterEdge(b, t, n, k, r, j);
      GrownLinked(t.g, g, r, j);
    } else {
      assert j == |b| - 1 && a == Def(k) && !Writes(b[j], k) && !Writes(b[r], k) && Reads(b[r], k) && !Reads(b[j], k);
      assert KeyOk(b, t, k);
      EpochExtends(b, r);
      assert forall m :: r <= m < |b| ==> !Writes(b[m], k);
      assert k in t.uses;
    }
  }

  lemma SelfStep(b: Block, c: Block, a: Access, t: Tables, n: nat, j: nat)
    requires Known(b, t, n) && Further(b, c, a) && j < |c| && c[j].kind != Barrier && Revisits(c[j])
    ensures |b| <= n && Linked(AfterAccess(t, a, |b| - 1).g, j, j)
  {
    hide Added, Linked, SameEpoch, Grown, GraphOk, Edge, Justified, RegisterEdges, Revisits;
    FurtherFacts(b, c, a);
    FurtherRevisits(b, c, a);
    KnownParts(b, t, n);
    LastInside(b, t, n, a.key);
    AccessGraph(b, a, t, n);
    var g := AfterAccess(t, a, |b| - 1).g;
    if Revisits(b[j]) {
      RegisterEdge(b, t, n, 0, 0, j);
      GrownLinked(t.g, g, j, j);
    } else {
      assert j == |b| - 1 && Writes(b[j], a.key);
      assert KeyOk(b, t, a.key);
      EmptyRange(b, j);
    }
  }

  /** The last writer is what the new access must wait for. */
  lemma LastDefRequired(b: Block, c: Block, a: Access, t: Tables, n: nat)
    requires Known(b, t, n) && Further(b, c, a) && a.key in t.defs
    ensures t.defs[a.key] < |b| && Required(c, t.defs[a.key], |b| - 1)
  {
    hide SameEpoch, ReadsFirst, Revisits, RegisterEdges, Justified, Reads, Writes;
    var k, i := a.key, |b| - 1;
    FurtherFacts(b, c, a);
    FurtherRevisits(b, c, a);
    assert KeyOk(b, t, k);
    var d := t.defs[k];
    if d < i {
      EpochShrinks(b, d, i);
      assert NeedsFlow(c, k, d, i);
    }
  }

  lemma EpochShrinks(b: Block, d: nat, i: nat)
    requires SameEpoch(b, d, |b|) && i <= |b|
    ensures SameEpoch(b, d, i)
  {
  }

  /** So is the last reader, when it counts. */
  lemma LastUseRequired(b: Block, c: Block, a: Access, t: Tables, n: nat)
    requires Known(b, t, n) && Further(b, c, a) && a.Def? && ReaderCounts(t, a.key, |b| - 1)
    ensures t.uses[a.key] < |b| && Required(c, t.uses[a.key], |b| - 1)
  {
    hide SameEpoch, ReadsFirst, Revisits, RegisterEdges, Justified, Reads, Writes;
    var k, i := a.key, |b| - 1;
    FurtherFacts(b, c, a);
    assert KeyOk(b, t, k);
    var r := t.uses[k];
    EpochShrinks(b, r, i);
    FirstReads(c[i], k);
    assert !Writes(b[r], k);
    assert NeedsAnti(c, k, r, i);
  }

  lemma JustStep(b: Block, c: Block, a: Access, t: Tables, n: nat)
    requires Known(b, t, n) && Further(b, c, a)
    ensures |b| <= n && Justified(c, AfterAccess(t, a, |b| - 1).g)
  {
    hide Added, Linked, Grown, GraphOk, Edge, RegisterEdges, Revisits, SameEpoch, KeyOk, Justified, Required, Extends;
    FurtherExtends(b, c, a);
    JustifiedMore(b, c, t.g);
    KnownParts(b, t, n);
    LastInside(b, t, n, a.key);
    RequiredInside(c);
    var i, k := |b| - 1, a.key;
    if k in t.defs {
      LastDefRequired(b, c, a, t, n);
      AddJustified(c, t.g, t.defs[k], i, n);
      JustifiedUpTo(c, t.g, i);
      AddedFacts(t.g, t.defs[k], i, n);
    }
    var g1 := LinkDef(t, k, i);
    if a.Def? && ReaderCounts(t, k, i) {
      LastUseRequired(b, c, a, t, n);
      AddJustified(c, g1, t.uses[k], i, n);
    }
  }

  lemma AccessStep(b: Block, c: Block, a: Access, t: Tables, n: nat)
    requires Known(b, t, n) && Further(b, c, a)
    ensures |b| <= n && Known(c, AfterAccess(t, a, |b| - 1), n)
  {
    hide Added, Linked, Reads, Writes, SameEpoch, Grown, GraphOk, Edge, Justified, Revisits, KeyOk, NeedsFlow,
         NeedsAnti, Required;
    KnownParts(b, t, n);
    AccessGraph(b, a, t, n);
    LastInside(b, t, n, a.key);
    var t' := AfterAccess(t, a, |b| - 1);
    forall k: nat
      ensures KeyOk(c, t', k)
    {
      assert KeyOk(b, t, k);
      KeyStep(b, c, a, t, k);
    }
    forall k: nat, d: nat, j: nat | NeedsFlow(c, k, d, j)
      ensures Linked(t'.g, d, j)
    {
      FlowStep(b, c, a, t, n, k, d, j);
    }
    forall k: nat, r: nat, j: nat | NeedsAnti(c, k, r, j)
      ensures Linked(t'.g, r, j)
    {
      AntiStep(b, c, a, t, n, k, r, j);
    }
    forall j: nat | j < |c| && c[j].kind != Barrier && Revisits(c[j])
      ensures Linked(t'.g, j, j)
    {
      SelfStep(b, c, a, t, n, j);
    }
    JustStep(b, c, a, t, n);
  }

  lemma LastInside(b: Block, t: Tables, n: nat, k: nat)
    requires Known(b, t, n)
    ensures (k in t.defs ==> t.defs[k] < |b|) && (k in t.uses ==> t.uses[k] < |b|)
  {
    assert KeyOk(b, t, k);
  }

  // ---- One more instruction ----

  lemma EpochPrefix(b: Block, x: Inst, i: nat, j: nat)
    ensures j <= |b| ==> SameEpoch(b + [x], i, j) == SameEpoch(b, i, j)
    ensures i <= |b| ==> (SameEpoch(b + [x], i, |b| + 1) <==> SameEpoch(b, i, |b|) && x.kind != Barrier)
  {
    var c := b + [x];
    if i <= |b| && SameEpoch(c, i, |b| + 1) {
      assert c[|b|].kind != Barrier;
      assert forall m :: i <= m < |b| ==> c[m].kind == b[m].kind;
    }
    assert forall m :: 0 <= m < |b| ==> c[m] == b[m];
  }

  /** A new instruction of which no access has been looked at yet. */
  lemma OpenKey(b: Block, x: Inst, t: Tables, k: nat)
    requires KeyOk(b, t, k) && x.kind != Barrier && x.acc == []
    ensures KeyOk(b + [x], t, k)
  {
    hide SameEpoch;
    var c := b + [x];
    assert forall m :: 0 <= m < |b| ==> c[m] == b[m];
    forall i: nat | i <= |b|
      ensures SameEpoch(c, i, |c|) == SameEpoch(b, i, |b|)
    {
      EpochPrefix(b, x, i, |b|);
    }
    if k !in t.uses {
      forall r: nat | r < |c| && Reads(c[r], k) && SameEpoch(c, r, |c|)
        ensures exists m :: r <= m < |c| && Writes(c[m], k)
      {
        var m :| r <= m < |b| && Writes(b[m], k);
        assert Writes(c[m], k);
      }
    }
  }

  /** What earlier instructions need does not depend on later ones. */
  lemma NeedsPrefix(b: Block, x: Inst, k: nat, i: nat, j: nat)
    requires j < |b|
    ensures NeedsFlow(b + [x], k, i, j) == NeedsFlow(b, k, i, j) && NeedsAnti(b + [x], k, i, j) == NeedsAnti(b, k, i, j)
  {
    hide Reads, Writes, SameEpoch, ReadsFirst;
    EpochPrefix(b, x, i, j);
    var c := b + [x];
    assert forall m :: 0 <= m < |b| ==> c[m] == b[m];
  }

  lemma OpenExtends(b: Block, x: Inst)
    ensures Extends(b, b + [x])
  {
    hide SameEpoch, ReadsFirst, Revisits, Reads, Writes, NeedsFlow, NeedsAnti;
    var c := b + [x];
    assert forall m :: 0 <= m < |b| ==> c[m] == b[m];
    RequiredInside(b);
    forall u: nat, v: nat | Required(b, u, v)
      ensures Required(c, u, v)
    {
      EpochPrefix(b, x, u, v);
      if k: nat :| NeedsFlow(b, k, u, v) {
        NeedsPrefix(b, x, k, u, v);
      } else if k: nat :| NeedsAnti(b, k, u, v) {
        NeedsPrefix(b, x, k, u, v);
      } else if NeedsMemory(b, u, v) {
        assert NeedsMemory(c, u, v);
      }
    }
  }

  lemma OpenEdges(b: Block, x: Inst, g: Graph)
    requires RegisterEdges(b, g) && Justified(b, g) && (x.kind == Barrier || x.acc == [])
    ensures RegisterEdges(b + [x], g) && Justified(b + [x], g)
  {
    hide SameEpoch, Linked, Edge, Justified, Extends;
    OpenExtends(b, x);
    JustifiedMore(b, b + [x], g);
    var c := b + [x];
    assert forall m :: 0 <= m < |b| ==> c[m] == b[m];
    forall k: nat, i: nat, j: nat
      ensures NeedsFlow(c, k, i, j) || NeedsAnti(c, k, i, j) ==> Linked(g, i, j)
    {
      if j < |b| {
        NeedsPrefix(b, x, k, i, j);
      }
    }
  }

  lemma OpenInst(b: Block, x: Inst, t: Tables, n: nat)
    requires Known(b, t, n) && |b| < n && x.kind != Barrier && x.acc == []
    ensures Known(b + [x], t, n)
  {
    hide KeyOk, RegisterEdges, Justified, GraphOk;
    forall k: nat
      ensures KeyOk(b + [x], t, k)
    {
      assert KeyOk(b, t, k);
      OpenKey(b, x, t, k);
    }
    OpenEdges(b, x, t.g);
  }

  /** A barrier forgets all readers and writers. */
  lemma BarrierInst(b: Block, x: Inst, t: Tables, n: nat)
    requires Known(b, t, n) && |b| < n && x.kind == Barrier
    ensures Known(b + [x], Tables(t.g, map[], map[]), n)
  {
    hide RegisterEdges, Justified, GraphOk;
    var c := b + [x];
    OpenEdges(b, x, t.g);
    forall i: nat | i < |c|
      ensures !SameEpoch(c, i, |c|)
    {
      assert c[|b|].kind == Barrier;
    }
  }

  // ---- Memory ----

  /** Store after the last store, store after any load, load after the last store. */
  ghost predicate NeedsMemory(b: Block, i: nat, j: nat) {
    && i < j < |b|
    && (|| (b[j].store && b[i].load)
        || ((b[j].store || b[j].load) && b[i].store && SameEpoch(b, i, j) && forall m :: i < m < j ==> !b[m].store))
  }

  ghost predicate MemoryEdges(b: Block, g: Graph) {
    forall i: nat, j: nat :: NeedsMemory(b, i, j) ==> Linked(g, i, j)
  }

  /** last is the last store of the current epoch, or -1. */
  ghost predicate IsLastStore(b: Block, last: int) {
    if last < 0 then forall m: nat :: m < |b| && SameEpoch(b, m, |b|) ==> !b[m].store
    else last < |b| && b[last].store && SameEpoch(b, last, |b|) && forall m :: last < m < |b| ==> !b[m].store
  }

  function LoadEdges(b: Block, g: Graph, i: nat, upto: nat): Graph
    requires i < |g.succs| == |g.over| && upto <= i && upto <= |b|
    ensures |LoadEdges(b, g, i, upto).succs| == |LoadEdges(b, g, i, upto).over| == |g.succs|
  {
    if upto == 0 then g
    else
      var h := LoadEdges(b, g, i, upto - 1);
      if b[upto - 1].load && b[upto - 1].kind != Pseudo then Added(h, upto - 1, i) else h
  }

  /** The edges that order instruction i, last looked at, with earlier memory operations. */
  function AfterMemory(b: Block, g: Graph, last: int, i: nat): Graph
    requires i < |g.succs| == |g.over| && i < |b| && last < |g.succs|
  {
    if b[i].store then LoadEdges(b, if last >= 0 then Added(g, last, i) else g, i, i)
    else if b[i].load && last >= 0 then Added(g, last, i)
    else g
  }

  lemma {:induction false} LoadEdgesFacts(b: Block, g: Graph, i: nat, upto: nat, n: nat)
    requires GraphOk(g, n) && upto <= i < |b| <= n && i == |b| - 1 && Shape(b) && b[i].store && Justified(b, g)
    ensures |g.succs| == |g.over| == n
    ensures var h := LoadEdges(b, g, i, upto);
            && GraphOk(h, n) && Grown(g, h) && Justified(b, h)
            && (forall j :: 0 <= j < upto && b[j].load ==> Linked(h, j, i))
  {
    hide GraphOk, Grown, Added, Linked, Edge, Justified, Required;
    GraphSize(g, n);
    GrownSelf(g);
    if upto > 0 {
      LoadEdgesFacts(b, g, i, upto - 1, n);
      var f := LoadEdges(b, g, i, upto - 1);
      var h := LoadEdges(b, g, i, upto);
      if b[upto - 1].load {
        JustifiedUpTo(b, f, i);
        AddedFacts(f, upto - 1, i, n);
        MemoryRequired(b, upto - 1, i);
        RequiredInside(b);
        AddJustified(b, f, upto - 1, i, n);
        GrownTwice(g, f, h);
        forall j | 0 <= j < upto - 1 && b[j].load
          ensures Linked(h, j, i)
        {
          GrownLinked(f, h, j, i);
        }
      }
    }
  }

  lemma MemoryRequired(b: Block, i: nat, j: nat)
    ensures NeedsMemory(b, i, j) ==> Required(b, i, j)
  {
  }

  lemma GraphSize(g: Graph, n: nat)
    requires GraphOk(g, n)
    ensures |g.succs| == |g.over| == n
  {
  }

  lemma AfterMemoryFacts(b: Block, g: Graph, last: int, i: nat, n: nat)
    requires GraphOk(g, n) && i == |b| - 1 && 0 < |b| <= n && Shape(b) && last < i && (last >= 0 ==> b[last].store)
    requires Justified(b, g)
    requires last >= 0 ==> SameEpoch(b, last, i) && forall m :: last < m < i ==> !b[m].store
    ensures |g.succs| == |g.over| == n
    ensures var h := AfterMemory(b, g, last, i);
            && GraphOk(h, n) && Grown(g, h) && Justified(b, h)
            && (b[i].store ==> forall j :: 0 <= j < i && b[j].load ==> Linked(h, j, i))
            && ((b[i].store || b[i].load) && last >= 0 ==> Linked(h, last, i))
  {
    hide GraphOk, Grown, Added, Linked, Edge, Shape, Justified, Required, SameEpoch;
    GraphSize(g, n);
    GrownSelf(g);
    if last >= 0 {
      JustifiedUpTo(b, g, i);
      AddedFacts(g, last, i, n);
      MemoryRequired(b, last, i);
      RequiredInside(b);
      if b[i].store || b[i].load {
        AddJustified(b, g, last, i, n);
      }
    }
    var f := if last >= 0 then Added(g, last, i) else g;
    if b[i].store {
      LoadEdgesFacts(b, f, i, i, n);
      var h := LoadEdges(b, f, i, i);
      GrownTwice(g, f, h);
      if last >= 0 {
        GrownLinked(f, h, last, i);
      }
    }
  }

  lemma GrownKnown(b: Block, t: Tables, h: Graph, n: nat)
    requires Known(b, t, n) && |b| > 0 && b[|b| - 1].kind != Barrier && GraphOk(h, n) && Grown(t.g, h)
    requires Justified(b, h)
    ensures Known(b, t.(g := h), n)
  {
    hide Linked, Edge, NeedsFlow, NeedsAnti, Grown, GraphOk, Revisits, IsLastDef, IsLastUse, NoDef, NoUse, Justified;
    forall k: nat
      ensures KeyOk(b, t.(g := h), k)
    {
      assert KeyOk(b, t, k);
    }
    forall k: nat, i: nat, j: nat
      ensures NeedsFlow(b, k, i, j) || NeedsAnti(b, k, i, j) ==> Linked(h, i, j)
    {
      RegisterEdge(b, t, n, k, i, j);
      if Linked(t.g, i, j) {
        GrownLinked(t.g, h, i, j);
      }
    }
    forall j: nat | j < |b| && b[j].kind != Barrier && Revisits(b[j])
      ensures Linked(h, j, j)
    {
      RegisterEdge(b, t, n, 0, 0, j);
      GrownLinked(t.g, h, j, j);
    }
  }

  lemma MemoryStep(b: Block, x: Inst, g: Graph, last: int, n: nat)
    requires MemoryEdges(b, g) && IsLastStore(b, last) && GraphOk(g, n) && |b| < n && Shape(b + [x])
    requires x.kind != Barrier
    requires Justified(b + [x], g)
    ensures |g.succs| == |g.over| == n && last < n
    ensures var h := AfterMemory(b + [x], g, last, |b|);
            MemoryEdges(b + [x], h) && GraphOk(h, n) && Grown(g, h) && Justified(b + [x], h)
    ensures IsLastStore(b + [x], if x.store then |b| else last)
  {
    hide GraphOk, Grown, Added, Linked, Edge, Shape, SameEpoch, Justified;
    var c := b + [x];
    var i := |b|;
    assert forall m :: 0 <= m < |b| ==> c[m] == b[m];
    if last >= 0 {
      EpochPrefix(b, x, last, |b|);
    }
    AfterMemoryFacts(c, g, last, i, n);
    var h := AfterMemory(c, g, last, i);
    forall u: nat, v: nat | NeedsMemory(c, u, v)
      ensures Linked(h, u, v)
    {
      EpochPrefix(b, x, u, v);
      if v < i {
        assert NeedsMemory(b, u, v);
        GrownLinked(g, h, u, v);
      }
    }
    forall m: nat | m < |b|
      ensures SameEpoch(c, m, |c|) == SameEpoch(b, m, |b|)
    {
      EpochPrefix(b, x, m, |b|);
    }
    EpochPrefix(b, x, |b|, |b|);
    EmptyRange(c, |b|);
  }

  lemma MemoryBarrier(b: Block, x: Inst, g: Graph)
    requires MemoryEdges(b, g) && x.kind == Barrier && Shape(b + [x])
    ensures MemoryEdges(b + [x], g) && IsLastStore(b + [x], -1)
  {
    hide Linked;
    var c := b + [x];
    assert forall m :: 0 <= m < |b| ==> c[m] == b[m];
    assert !c[|b|].load && !c[|b|].store;
    forall u: nat, v: nat | NeedsMemory(c, u, v)
      ensures Linked(g, u, v)
    {
      EpochPrefix(b, x, u, v);
      assert NeedsMemory(b, u, v);
    }
    forall i: nat | i < |c|
      ensures !SameEpoch(c, i, |c|)
    {
      assert c[|b|].kind == Barrier;
    }
  }

  lemma MemoryGrown(b: Block, g: Graph, h: Graph)
    requires MemoryEdges(b, g) && Grown(g, h)
    ensures MemoryEdges(b, h)
  {
    hide Linked, Grown, NeedsMemory;
    forall i: nat, j: nat | NeedsMemory(b, i, j)
      ensures Linked(h, i, j)
    {
      GrownLinked(g, h, i, j);
    }
  }

  // ---- The builder ----

  /** Number of barriers before instruction i. */
  function Epoch(b: Block, i: nat): nat
    requires i <= |b|
  {
    if i == 0 then 0 else Epoch(b, i - 1) + if b[i - 1].kind == Barrier then 1 else 0
  }

  /** The graph of a block: every required edge is there or marked, and nothing else is. */
  ghost predicate DagOf(b: Block, g: Graph) {
    GraphOk(g, |b|) && Justified(b, g) && forall x: nat, y: nat :: Required(b, x, y) ==> Linked(g, x, y)
  }

  lemma {:induction false} SetWithin(t: set<nat>, s: seq<nat>)
    requires forall x :: x in t ==> x in s
    ensures |t| <= |s|
  {
    if s == [] {
      assert t == {};
    } else {
      SetWithin(t - {s[0]}, s[1..]);
    }
  }

  /** A required edge that is not there was refused. */
  lemma SomeRefused(b: Block, g: Graph, x: nat, from: set<nat>) returns (y: nat)
    requires DagOf(b, g) && x < |b| && |from| > |g.succs[x]| && forall z :: z in from ==> Required(b, x, z)
    ensures y in from && Refused(g, x, y)
  {
    hide Required, Refused;
    if forall z :: z in from ==> z in g.succs[x] {
      SetWithin(from, g.succs[x]);
    }
    y :| y in from && y !in g.succs[x];
    assert Linked(g, x, y);
  }

  /** An instruction with too many followers is marked, and so is one that comes too late: it cannot be
      in a list from which an earlier one was refused. */
  lemma OverfullIsMarked(b: Block, g: Graph, x: nat)
    requires DagOf(b, g) && Overfull(b, x)
    ensures |g.over| == |b| && g.over[x]
  {
    hide Required;
    if |Followers(b, x)| > MAX_DEPS {
      var y := SomeRefused(b, g, x, Followers(b, x));
    } else {
      var u: nat :| u < |b| && Required(b, u, x) && |Ahead(b, u, x)| >= MAX_DEPS;
      if x in g.succs[u] {
        var y := SomeRefused(b, g, u, Ahead(b, u, x) + {x});
        InList(g.succs[u], x);
      } else {
        assert Linked(g, u, x);
      }
    }
  }

  lemma InList(s: seq<nat>, x: nat)
    requires x in s
    ensures exists i :: 0 <= i < |s| && s[i] == x
  {
  }

  /** The marks are determined by the block. */
  lemma DagMarks(b: Block, g: Graph)
    requires DagOf(b, g)
    ensures g.over == Marks(b)
  {
    hide Required, Followers, Overfull, Linked;
    forall x: nat | x < |b|
      ensures g.over[x] <==> Overfull(b, x)
    {
      if Overfull(b, x) {
        OverfullIsMarked(b, g, x);
      }
    }
  }

  /** Some mark means that some instruction has too many followers. */
  lemma LateMeansFull(b: Block, x: nat)
    requires Overfull(b, x)
    ensures TooMany(b)
  {
    hide Required;
    if |Followers(b, x)| <= MAX_DEPS {
      var u: nat :| u < |b| && Required(b, u, x) && |Ahead(b, u, x)| >= MAX_DEPS;
      assert x !in Ahead(b, u, x) && x in Followers(b, u);
      FiniteSets.SubsetSize(Ahead(b, u, x) + {x}, Followers(b, u));
    }
  }

  /** Without marks the edges are exactly the required ones; there is a mark exactly when some
      instruction has too many followers. */
  lemma DagExact(b: Block, g: Graph)
    requires DagOf(b, g)
    ensures true in g.over <==> TooMany(b)
    ensures true !in g.over ==> forall x: nat, y: nat :: Edge(g, x, y) <==> Required(b, x, y)
  {
    hide Required, Followers, Overfull;
    DagMarks(b, g);
    if x: nat :| x < |b| && |Followers(b, x)| > MAX_DEPS {
      FullIsOver(b, x);
      assert g.over[x];
    } else if true in g.over {
      var x: nat :| x < |g.over| && g.over[x];
      LateMeansFull(b, x);
    }
  }

  lemma FullIsOver(b: Block, x: nat)
    requires x < |b| && |Followers(b, x)| > MAX_DEPS
    ensures Overfull(b, x)
  {
  }

  ghost predicate BarrierList(b: Block, upto: nat, barriers: seq<nat>) {
    && upto <= |b| && |barriers| == Epoch(b, upto)
    && (forall q :: 0 <= q < |barriers| ==>
          barriers[q] < upto && b[barriers[q]].kind == Barrier && Epoch(b, barriers[q]) == q)
    && (forall i: nat :: i < upto && b[i].kind == Barrier ==> Epoch(b, i) < |barriers| && barriers[Epoch(b, i)] == i)
  }

  lemma Progress(b: Block, t: Tables, last: int)
    requires Prefix(b, |b|, t, last)
    ensures DagOf(b, t.g)
  {
    assert b[..|b|] == b;
    hide NeedsFlow, NeedsAnti, NeedsMemory, Linked, Revisits, Justified, KeyOk, IsLastStore;
    forall x: nat, y: nat | Required(b, x, y)
      ensures Linked(t.g, x, y)
    {
    }
  }

  class Builder {
    var succs: seq<seq<nat>>
    var over: seq<bool>
    var defs: map<nat, nat>
    var uses: map<nat, nat>

    function Contents(): Tables
      reads this
    {
      Tables(Graph(succs, over), defs, uses)
    }

    constructor (n: nat)
      ensures Contents() == Tables(Graph(seq(n, _ => []), seq(n, _ => false)), map[], map[])
    {
      succs, over := seq(n, _ => []), seq(n, _ => false);
      defs, uses := map[], map[];
    }

    method AddEdge(x: nat, y: nat)
      requires x < |succs| == |over| && y < |over|
      modifies this`succs, this`over
      ensures Graph(succs, over) == Added(old(Graph(succs, over)), x, y)
    {
      for i := 0 to |succs[x]|
        invariant y !in succs[x][..i]
      {
        if succs[x][i] == y {
          return;
        }
      }
      assert succs[x][..|succs[x]|] == succs[x];
      if |succs[x]| < MAX_DEPS {
        succs := succs[x := succs[x] + [y]];
      } else {
        over := over[x := true];
        over := over[y := true];
      }
    }

    method TrackDef(k: nat, i: nat)
      requires i < |succs| == |over| && (k in defs ==> defs[k] < |succs|) && (k in uses ==> uses[k] < |succs|)
      modifies this
      ensures Contents() == AfterDef(old(Contents()), k, i)
    {
      if k in defs {
        AddEdge(defs[k], i);
      }
      if k in uses && (k !in defs || uses[k] != defs[k]) && uses[k] != i {
        AddEdge(uses[k], i);
      }
      defs := defs[k := i];
      uses := uses - {k};
    }

    method TrackUse(k: nat, i: nat)
      requires i < |succs| == |over| && (k in defs ==> defs[k] < |succs|)
      modifies this
      ensures Contents() == AfterUse(old(Contents()), k, i)
    {
      if k in defs {
        AddEdge(defs[k], i);
      }
      uses := uses[k := i];
    }

    /** All register accesses of one instruction. */
    method TrackAccesses(b: Block, i: nat, n: nat)
      requires i < |b| <= n && b[i].kind != Barrier && Known(b[..i], Contents(), n)
      modifies this
      ensures Known(b[..i + 1], Contents(), n)
      ensures Grown(old(Graph(succs, over)), Graph(succs, over))
    {
      hide Known, Grown, Added;
      ghost var x := b[i];
      ghost var start := Graph(succs, over);
      OpenInst(b[..i], x.(acc := []), Contents(), n);
      GrownSelf(start);
      for e := 0 to |b[i].acc|
        modifies this
        invariant Known(b[..i] + [x.(acc := x.acc[..e])], Contents(), n)
        invariant Grown(start, Graph(succs, over))
      {
        ghost var c, d := b[..i] + [x.(acc := x.acc[..e])], b[..i] + [x.(acc := x.acc[..e + 1])];
        var a := b[i].acc[e];
        assert x.acc[..e + 1] == x.acc[..e] + [a];
        KnownParts(c, Contents(), n);
        LastInside(c, Contents(), n, a.key);
        AccessGraph(c, a, Contents(), n);
        AccessStep(c, d, a, Contents(), n);
        GrownTwice(start, Graph(succs, over), AfterAccess(Contents(), a, i).g);
        match a
        case Use(k) => TrackUse(k, i);
        case Def(k) => TrackDef(k, i);
      }
      assert x.acc[..|x.acc|] == x.acc;
      assert b[..i] + [x] == b[..i + 1];
    }

    /** Order instruction i with earlier memory operations. */
    method TrackMemory(b: Block, i: nat, last: int) returns (next: int)
      requires i < |succs| == |over| && i < |b| && last < |succs| && !(b[i].load && b[i].store)
      modifies this`succs, this`over
      ensures Graph(succs, over) == AfterMemory(b, old(Graph(succs, over)), last, i)
      ensures next == if b[i].store then i else last
    {
      next := last;
      if b[i].store {
        if last >= 0 {
          AddEdge(last, i);
        }
        ghost var g := Graph(succs, over);
        for j := 0 to i
          modifies this`succs, this`over
          invariant |succs| == |over| == |g.succs| && Graph(succs, over) == LoadEdges(b, g, i, j)
        {
          if b[j].load && b[j].kind != Pseudo {
            AddEdge(j, i);
          }
        }
        next := i;
      }
      if b[i].load && next >= 0 {
        AddEdge(next, i);
      }
    }

    /** One instruction that is no barrier. */
    method TrackInst(b: Block, i: nat, last: int) returns (next: int)
      requires Shape(b) && i < |b| && b[i].kind != Barrier && Prefix(b, i, Contents(), last)
      modifies this
      ensures Prefix(b, i + 1, Contents(), next)
    {
      hide Known, MemoryEdges, Grown, Added, IsLastStore, Shape, AfterMemory;
      ghost var before := Graph(succs, over);
      TrackAccesses(b, i, |b|);
      PlainInst(b, i, Contents(), last, before, |b|);
      ShapeAt(b, i);
      next := TrackMemory(b, i, last);
    }

    method Forget(b: Block, i: nat, last: int)
      requires Shape(b) && i < |b| && b[i].kind == Barrier && Prefix(b, i, Contents(), last)
      modifies this`defs, this`uses
      ensures Prefix(b, i + 1, Contents(), -1)
    {
      hide Known, MemoryEdges, IsLastStore, Shape;
      BarrierKnown(b, i, Contents(), |b|);
      defs, uses := map[], map[];
    }
  }

  /** The first i instructions of b have been looked at. */
  ghost predicate Prefix(b: Block, i: nat, t: Tables, last: int) {
    i <= |b| && Known(b[..i], t, |b|) && MemoryEdges(b[..i], t.g) && IsLastStore(b[..i], last)
  }

  lemma ShapePrefix(b: Block, i: nat)
    requires Shape(b) && i <= |b|
    ensures Shape(b[..i])
  {
    var c := b[..i];
    assert forall m :: 0 <= m < i ==> c[m] == b[m];
  }

  lemma NothingKnown(n: nat)
    ensures Known([], Tables(Graph(seq(n, _ => []), seq(n, _ => false)), map[], map[]), n)
    ensures MemoryEdges([], Graph(seq(n, _ => []), seq(n, _ => false))) && IsLastStore([], -1)
  {
  }

  lemma {:induction false} EpochMonotone(b: Block, i: nat, j: nat)
    requires i <= j <= |b|
    ensures Epoch(b, i) <= Epoch(b, j)
    ensures Epoch(b, i) == Epoch(b, j) <==> SameEpoch(b, i, j)
    decreases j
  {
    if i < j {
      EpochMonotone(b, i, j - 1);
      assert SameEpoch(b, i, j) <==> SameEpoch(b, i, j - 1) && b[j - 1].kind != Barrier;
    }
  }

  lemma BarrierNext(b: Block, i: nat, barriers: seq<nat>)
    requires BarrierList(b, i, barriers) && i < |b|
    ensures BarrierList(b, i + 1, if b[i].kind == Barrier then barriers + [i] else barriers)
  {
    EpochOne(b, i);
    hide Epoch;
    var l := if b[i].kind == Barrier then barriers + [i] else barriers;
    forall q | 0 <= q < |l|
      ensures l[q] < i + 1 && b[l[q]].kind == Barrier && Epoch(b, l[q]) == q
    {
      assert q < |barriers| ==> l[q] == barriers[q];
    }
    forall j: nat | j < i + 1 && b[j].kind == Barrier
      ensures Epoch(b, j) < |l| && l[Epoch(b, j)] == j
    {
      assert j < i ==> l[Epoch(b, j)] == barriers[Epoch(b, j)];
    }
  }

  lemma EpochZero(b: Block)
    ensures Epoch(b, 0) == 0
  {
  }

  lemma EpochOne(b: Block, i: nat)
    requires i < |b|
    ensures Epoch(b, i + 1) == Epoch(b, i) + if b[i].kind == Barrier then 1 else 0
  {
  }

  lemma PlainInst(b: Block, i: nat, t: Tables, last: int, before: Graph, n: nat)
    requires Shape(b) && i < |b| == n && b[i].kind != Barrier
    requires Known(b[..i + 1], t, n) && MemoryEdges(b[..i], before) && Grown(before, t.g) && IsLastStore(b[..i], last)
    ensures |t.g.succs| == |t.g.over| == n && last < n
    ensures var c := b[..i + 1];
            var h := AfterMemory(c, t.g, last, i);
            && h == AfterMemory(b, t.g, last, i)
            && Known(c, t.(g := h), n) && MemoryEdges(c, h) && IsLastStore(c, if b[i].store then i else last)
  {
    hide Known, MemoryEdges, Grown, Added, GraphOk, Justified, AfterMemory;
    var c := b[..i + 1];
    assert c == b[..i] + [b[i]];
    ShapePrefix(b, i + 1);
    KnownParts(c, t, n);
    MemoryGrown(b[..i], before, t.g);
    MemoryStep(b[..i], b[i], t.g, last, n);
    SameMemory(b, i, t.g, last);
    GrownKnown(c, t, AfterMemory(c, t.g, last, i), n);
  }

  lemma {:induction false} SameLoads(b: Block, i: nat, g: Graph, upto: nat)
    requires i < |g.succs| == |g.over| && upto <= i < |b|
    ensures LoadEdges(b, g, i, upto) == LoadEdges(b[..i + 1], g, i, upto)
  {
    if upto > 0 {
      SameLoads(b, i, g, upto - 1);
    }
  }

  lemma SameMemory(b: Block, i: nat, g: Graph, last: int)
    requires i < |g.succs| == |g.over| && i < |b| && last < |g.succs|
    ensures AfterMemory(b, g, last, i) == AfterMemory(b[..i + 1], g, last, i)
  {
    hide LoadEdges;
    if b[i].store {
      SameLoads(b, i, if last >= 0 then Added(g, last, i) else g, i);
    }
  }

  lemma BarrierKnown(b: Block, i: nat, t: Tables, n: nat)
    requires Shape(b) && i < |b| == n && b[i].kind == Barrier && Known(b[..i], t, n) && MemoryEdges(b[..i], t.g)
    ensures Known(b[..i + 1], Tables(t.g, map[], map[]), n) && MemoryEdges(b[..i + 1], t.g)
    ensures IsLastStore(b[..i + 1], -1)
  {
    hide Known, MemoryEdges, IsLastStore;
    assert b[..i + 1] == b[..i] + [b[i]];
    ShapePrefix(b, i + 1);
    BarrierInst(b[..i], b[i], t, n);
    MemoryBarrier(b[..i], b[i], t.g);
  }

  /** build_dag.  It gives up on a block with more barriers than it can list. */
  method BuildDag(b: Block) returns (ok: bool, g: Graph, epoch: seq<nat>, barriers: seq<nat>)
    requires Shape(b)
    ensures ok <==> Epoch(b, |b|) <= MAX_BARRIERS
    ensures ok ==> DagOf(b, g) && BarrierList(b, |b|, barriers)
    ensures ok ==> (true in g.over <==> TooMany(b))
    ensures ok ==> g.over == Marks(b)
    ensures ok ==> |epoch| == |b| && forall i :: 0 <= i < |b| ==> epoch[i] == Epoch(b, i)
  {
    hide Prefix, Shape, DagOf, BarrierList, Epoch, SameEpoch, TooMany, Followers, Overfull;
    var n := |b|;
    EpochZero(b);
    var t := new Builder(n);
    StartUp(b);
    var last, cur := -1, 0;
    epoch, barriers, g := [], [], Graph([], []);
    for i := 0 to n
      modifies t
      invariant Prefix(b, i, t.Contents(), last)
      invariant cur == Epoch(b, i) <= MAX_BARRIERS && BarrierList(b, i, barriers)
      invariant |epoch| == i && forall j :: 0 <= j < i ==> epoch[j] == Epoch(b, j)
    {
      epoch := epoch + [cur];
      EpochOne(b, i);
      BarrierNext(b, i, barriers);
      if b[i].kind == Barrier {
        EpochMonotone(b, i + 1, n);
        BarrierCount(b, i, barriers);
        if |barriers| >= MAX_BARRIERS {
          return false, g, epoch, barriers;
        }
        t.Forget(b, i, last);
        barriers := barriers + [i];
        cur := cur + 1;
        last := -1;
        continue;
      }
      last := t.TrackInst(b, i, last);
    }
    g := Graph(t.succs, t.over);
    Progress(b, t.Contents(), last);
    DagExact(b, g);
    DagMarks(b, g);
    ok := true;
  }

  lemma StartUp(b: Block)
    ensures Prefix(b, 0, Tables(Graph(seq(|b|, _ => []), seq(|b|, _ => false)), map[], map[]), -1)
    ensures BarrierList(b, 0, [])
  {
    assert b[..0] == [];
    NothingKnown(|b|);
  }

  lemma ShapeAt(b: Block, i: nat)
    requires Shape(b) && i < |b|
    ensures !(b[i].load && b[i].store)
  {
  }

  lemma BarrierCount(b: Block, i: nat, barriers: seq<nat>)
    requires BarrierList(b, i, barriers)
    ensures |barriers| == Epoch(b, i)
  {
  }
}
