/** Which orders the graph allows, and exactly when all of them run alike, though the graph has an
    edge only to the last writer, the last reader and the last store. */
module ScheduleOrder {
  import opened ScheduleDag
  import opened ScheduleMeaning
  import opened Permutations

  /** The place of an instruction in the block: pseudo-operations, then epoch by epoch the plain
      instructions and the barrier that ends them, then terminators. */
  function Zone(b: Block, i: nat): nat
    requires i < |b|
  {
    match b[i].kind
    case Pseudo => 0
    case Plain => 2 * Epoch(b, i) + 1
    case Barrier => 2 * Epoch(b, i) + 2
    case Term => 2 * Epoch(b, |b|) + 2
  }

  /** Only plain instructions of one epoch change places. */
  ghost predicate InZones(b: Block, order: seq<nat>)
    requires InBlock(b, order)
  {
    && (forall p, q :: 0 <= p < q < |order| ==> Zone(b, order[p]) <= Zone(b, order[q]))
    && (forall p, q :: 0 <= p < q < |order| && Zone(b, order[p]) == Zone(b, order[q]) && b[order[p]].kind != Plain ==>
          order[p] < order[q])
  }

  /** No edge of the graph runs backward in the order. */
  ghost predicate FollowsGraph(b: Block, g: Graph, order: seq<nat>)
    requires InBlock(b, order)
  {
    InZones(b, order) && forall p, q :: 0 <= p < q < |order| && b[order[p]].kind == Plain ==>
        !Edge(g, order[q], order[p])
  }

  /** The orders a list scheduler may choose: every instruction once, no required edge backward. */
  ghost predicate Good(b: Block, order: seq<nat>) {
    && Permutation(|b|, order) && InBlock(b, order) && InZones(b, order)
    && (forall p, q :: 0 <= p < q < |order| && b[order[p]].kind == Plain ==> !Required(b, order[q], order[p]))
  }

  ghost predicate Before(order: seq<nat>, i: nat, j: nat) {
    exists p, q :: 0 <= p < q < |order| && order[p] == i && order[q] == j
  }

  lemma BeforeTransitive(n: nat, order: seq<nat>, i: nat, j: nat, k: nat)
    requires Partial(n, order) && Before(order, i, j) && Before(order, j, k)
    ensures Before(order, i, k)
  {
    var p, q :| 0 <= p < q < |order| && order[p] == i && order[q] == j;
    var r, s :| 0 <= r < s < |order| && order[r] == j && order[s] == k;
    assert q == r;
  }

  ghost predicate PlainPair(b: Block, i: nat, j: nat) {
    i < j < |b| && b[i].kind == Plain && b[j].kind == Plain && SameEpoch(b, i, j)
  }

  lemma InnerPlain(b: Block, i: nat, j: nat, d: nat)
    requires Shape(b) && PlainPair(b, i, j) && i < d < j
    ensures PlainPair(b, i, d) && PlainPair(b, d, j)
  {
    assert b[d].kind != Barrier;
  }

  // ---- Paths ----

  /** A path of required edges leads from i to j. */
  ghost predicate Joined(b: Block, i: nat, j: nat)
    decreases j - i
  {
    i == j || exists m: nat :: i < m <= j && Required(b, i, m) && Joined(b, m, j)
  }

  lemma {:induction false} JoinedTransitive(b: Block, i: nat, j: nat, k: nat)
    requires i <= j <= k && Joined(b, i, j) && Joined(b, j, k)
    ensures Joined(b, i, k)
    decreases j - i
  {
    hide Required;
    if i < j {
      var m: nat :| i < m <= j && Required(b, i, m) && Joined(b, m, j);
      JoinedTransitive(b, m, j, k);
    }
  }

  lemma EdgeKept(b: Block, order: seq<nat>, i: nat, j: nat)
    requires Good(b, order) && PlainPair(b, i, j) && Required(b, i, j)
    ensures Before(order, i, j)
  {
    hide Required, InZones;
    assert i in order && j in order;
    var p :| 0 <= p < |order| && order[p] == i;
    var q :| 0 <= q < |order| && order[q] == j;
    assert p != q;
  }

  lemma {:induction false} PathKept(b: Block, order: seq<nat>, i: nat, j: nat)
    requires Shape(b) && Good(b, order) && PlainPair(b, i, j) && Joined(b, i, j)
    ensures Before(order, i, j)
    decreases j - i
  {
    hide Required, InZones, Before;
    var m: nat :| i < m <= j && Required(b, i, m) && Joined(b, m, j);
    if m == j {
      EdgeKept(b, order, i, j);
    } else {
      InnerPlain(b, i, j, m);
      EdgeKept(b, order, i, m);
      PathKept(b, order, m, j);
      BeforeTransitive(|b|, order, i, m, j);
    }
  }

  lemma OneEdge(b: Block, k: nat, i: nat, j: nat)
    requires i < j && (NeedsFlow(b, k, i, j) || NeedsAnti(b, k, i, j) || NeedsMemory(b, i, j))
    ensures Joined(b, i, j)
  {
    hide NeedsFlow, NeedsAnti, NeedsMemory;
    assert Required(b, i, j) && Joined(b, j, j);
  }

  lemma LastWriter(b: Block, k: nat, i: nat, j: nat) returns (d: nat)
    requires i < j <= |b| && Writes(b[i], k)
    ensures i <= d < j && Writes(b[d], k) && forall m :: d < m < j ==> !Writes(b[m], k)
    decreases j
  {
    if Writes(b[j - 1], k) {
      d := j - 1;
    } else {
      d := LastWriter(b, k, i, j - 1);
    }
  }

  /** The chain of last writers leads from a write to every later access of the epoch. */
  lemma {:induction false} WriteFirst(b: Block, k: nat, i: nat, j: nat)
    requires Shape(b) && PlainPair(b, i, j) && Writes(b[i], k) && (Reads(b[j], k) || Writes(b[j], k))
    ensures Joined(b, i, j)
    decreases j - i
  {
    hide Joined, Reads, Writes;
    var d := LastWriter(b, k, i, j);
    if d > i {
      InnerPlain(b, i, j, d);
      WriteFirst(b, k, i, d);
    }
    OneEdge(b, k, d, j);
    if d > i {
      JoinedTransitive(b, i, d, j);
    }
  }

  lemma {:induction false} StoreFirst(b: Block, i: nat, j: nat)
    requires Shape(b) && PlainPair(b, i, j) && b[i].store && (b[j].load || b[j].store)
    ensures Joined(b, i, j)
    decreases j - i
  {
    hide Joined;
    if m :| i < m < j && b[m].store {
      InnerPlain(b, i, j, m);
      StoreFirst(b, i, m);
      StoreFirst(b, m, j);
      JoinedTransitive(b, i, m, j);
    } else {
      OneEdge(b, 0, i, j);
    }
  }

  // ---- Readers ----

  /** Every reader of a key is led to every later writer of it in the epoch.  The graph has an edge
      only from the last reader, so this is a condition on the block. */
  ghost predicate ReadersLed(b: Block) {
    forall k: nat, i: nat, j: nat :: PlainPair(b, i, j) && Reads(b[i], k) && Writes(b[j], k) ==> Joined(b, i, j)
  }

  /** Between two writes of a key in one epoch there is at most one reader. */
  ghost predicate OneReader(b: Block) {
    forall k: nat, i: nat, j: nat, l: nat ::
      i < j <= l < |b| && SameEpoch(b, i, l) && Reads(b[i], k) && Reads(b[j], k) && Writes(b[l], k) ==>
          Rewritten(b, k, i, j)
  }

  ghost predicate Rewritten(b: Block, k: nat, i: nat, j: nat) {
    exists m :: i <= m < j && m < |b| && Writes(b[m], k)
  }

  lemma {:induction false} ReadFirst(b: Block, k: nat, i: nat, j: nat)
    requires Shape(b) && OneReader(b) && PlainPair(b, i, j) && Reads(b[i], k) && Writes(b[j], k)
    ensures Joined(b, i, j)
    decreases j - i
  {
    hide Joined, Reads, Writes, ReadsFirst;
    if Writes(b[i], k) {
      WriteFirst(b, k, i, j);
    } else if m :| i < m < j && Writes(b[m], k) {
      InnerPlain(b, i, j, m);
      ReadFirst(b, k, i, m);
      WriteFirst(b, k, m, j);
      JoinedTransitive(b, i, m, j);
    } else {
      forall r | i < r <= j
        ensures !Reads(b[r], k)
      {
        assert Reads(b[r], k) ==> Rewritten(b, k, i, r);
      }
      FirstReads(b[j], k);
      OneEdge(b, k, i, j);
    }
  }

  /** One reader between writes is enough. */
  lemma OneReaderIsLed(b: Block)
    requires Shape(b) && OneReader(b)
    ensures ReadersLed(b)
  {
    hide OneReader, Joined;
    forall k: nat, i: nat, j: nat | PlainPair(b, i, j) && Reads(b[i], k) && Writes(b[j], k)
      ensures Joined(b, i, j)
    {
      ReadFirst(b, k, i, j);
    }
  }

  lemma ConflictLed(b: Block, i: nat, j: nat)
    requires Shape(b) && ReadersLed(b) && PlainPair(b, i, j) && Conflict(b[i], b[j])
    ensures Joined(b, i, j)
  {
    hide Joined, Reads, Writes;
    if k: nat :| Writes(b[i], k) && (Reads(b[j], k) || Writes(b[j], k)) {
      WriteFirst(b, k, i, j);
    } else if k: nat :| Reads(b[i], k) && Writes(b[j], k) {
    } else if b[i].store {
      StoreFirst(b, i, j);
    } else {
      OneEdge(b, 0, i, j);
    }
  }

  lemma ZoneMonotone(b: Block, i: nat, j: nat)
    requires Shape(b) && i < j < |b|
    ensures Zone(b, i) <= Zone(b, j)
    ensures Zone(b, i) == Zone(b, j) && b[i].kind == Plain ==> PlainPair(b, i, j)
    ensures Zone(b, i) == Zone(b, j) && b[j].kind == Plain ==> PlainPair(b, i, j)
  {
    EpochMonotone(b, i, j);
    EpochMonotone(b, j, |b|);
    EpochMonotone(b, i + 1, j);
  }

  /** Instructions that changed places are plain, of one epoch, and independent. */
  lemma FollowsKeeps(b: Block, order: seq<nat>)
    requires Shape(b) && Good(b, order) && ReadersLed(b)
    ensures InBlock(b, order) && KeepsConflicts(b, order)
  {
    hide ReadersLed, Conflict, Zone, Shape, Joined, Required;
    forall p, q | 0 <= p < q < |order| && order[p] > order[q]
      ensures Independent(b[order[q]], b[order[p]])
    {
      var i, j := order[q], order[p];
      ZoneMonotone(b, i, j);
      assert b[j].kind == Plain && PlainPair(b, i, j);
      if Conflict(b[i], b[j]) {
        ConflictLed(b, i, j);
        PathKept(b, order, i, j);
      }
    }
  }

  // ---- A reader that is not led to a writer ----

  /** Classes of instructions: before i, on the way to j, the rest of i to j, after j. */
  ghost function Classes(b: Block, i: nat, j: nat): (c: seq<nat>)
    ensures |c| == |b|
    ensures forall x :: 0 <= x < |b| ==>
              c[x] == if x < i then 0 else if x > j then 3 else if Joined(b, x, j) then 1 else 2
  {
    seq(|b|, x requires 0 <= x < |b| => if x < i then 0 else if x > j then 3 else if Joined(b, x, j) then 1 else 2)
  }

  ghost predicate Lower(c: seq<nat>, x: nat, y: nat) {
    x < |c| && y < |c| && (c[x] < c[y] || (c[x] == c[y] && x < y))
  }

  ghost predicate Lexical(c: seq<nat>, order: seq<nat>) {
    forall p, q :: 0 <= p < q < |order| ==> Lower(c, order[p], order[q])
  }

  /** The first n instructions of one class. */
  ghost function ClassOf(c: seq<nat>, n: nat, v: nat): (r: seq<nat>)
    requires n <= |c|
    ensures forall x :: x in r <==> 0 <= x < n && c[x] == v
    ensures Lexical(c, r)
  {
    if n == 0 then [] else ClassOf(c, n - 1, v) + if c[n - 1] == v then [n - 1] else []
  }

  /** All instructions of classes below v, class by class. */
  ghost function ByClass(c: seq<nat>, v: nat): (r: seq<nat>)
    ensures forall x :: x in r <==> 0 <= x < |c| && c[x] < v
    ensures Lexical(c, r)
  {
    if v == 0 then []
    else
      var front, back := ByClass(c, v - 1), ClassOf(c, |c|, v - 1);
      assert forall p :: 0 <= p < |front| ==> front[p] in front;
      assert forall q :: 0 <= q < |back| ==> back[q] in back;
      front + back
  }

  /** The instructions on the way to j first, then the others from i on. */
  ghost function Swapped(b: Block, i: nat, j: nat): seq<nat> {
    ByClass(Classes(b, i, j), 4)
  }

  lemma SwappedPermutation(b: Block, i: nat, j: nat)
    ensures Permutation(|b|, Swapped(b, i, j)) && InBlock(b, Swapped(b, i, j))
    ensures Lexical(Classes(b, i, j), Swapped(b, i, j))
  {
    var order := Swapped(b, i, j);
    assert forall p :: 0 <= p < |order| ==> order[p] in order;
    AllPlaced(|b|, order, |b|);
  }

  /** What overtakes goes from the others to the way to j, within i to j. */
  lemma Overtakes(b: Block, i: nat, j: nat, u: nat, v: nat)
    requires Lower(Classes(b, i, j), v, u) && u < v
    ensures i <= u < v <= j && Joined(b, v, j) && !Joined(b, u, j)
  {
    hide Joined;
  }

  lemma SwappedGood(b: Block, i: nat, j: nat)
    requires Shape(b) && PlainPair(b, i, j)
    ensures Good(b, Swapped(b, i, j))
  {
    hide Joined, Required, Shape, Zone, Permutation, PlainPair, Lower;
    var c, order := Classes(b, i, j), Swapped(b, i, j);
    SwappedPermutation(b, i, j);
    forall p, q | 0 <= p < q < |order|
      ensures Zone(b, order[p]) <= Zone(b, order[q])
      ensures Zone(b, order[p]) == Zone(b, order[q]) && b[order[p]].kind != Plain ==> order[p] < order[q]
      ensures !Required(b, order[q], order[p])
    {
      assert Lower(c, order[p], order[q]);
      SwappedPair(b, i, j, order[p], order[q]);
    }
  }

  lemma SwappedPair(b: Block, i: nat, j: nat, v: nat, u: nat)
    requires Shape(b) && PlainPair(b, i, j) && v < |b| && u < |b| && Lower(Classes(b, i, j), v, u)
    ensures Zone(b, v) <= Zone(b, u)
    ensures Zone(b, v) == Zone(b, u) && b[v].kind != Plain ==> v < u
    ensures !Required(b, u, v)
  {
    hide Joined, Required, Shape, Zone;
    if v < u {
      if Required(b, u, v) {
        RequiredForward(b, u, v);
      }
      ZoneMonotone(b, v, u);
    } else if u < v {
      Overtakes(b, i, j, u, v);
      PlainInside(b, i, j, u);
      PlainInside(b, i, j, v);
      if Required(b, u, v) {
        JoinedFirst(b, u, v, j);
      }
    }
  }

  lemma JoinedFirst(b: Block, u: nat, v: nat, j: nat)
    requires u < v <= j && Joined(b, v, j) && Required(b, u, v)
    ensures Joined(b, u, j)
  {
  }

  lemma PlainInside(b: Block, i: nat, j: nat, x: nat)
    requires Shape(b) && PlainPair(b, i, j) && i <= x <= j
    ensures b[x].kind == Plain && Zone(b, x) == 2 * Epoch(b, i) + 1
  {
    if i < x < j {
      InnerPlain(b, i, j, x);
    }
    EpochMonotone(b, i, x);
  }

  /** Every instruction writes its own number, one up. */
  ghost function Tagging(): Sem {
    Sem((i: nat, k: nat, s: Machine) => i + 1, (i: nat, s: Machine) => 0, (i: nat, s: Machine) => s)
  }

  function Zero(k: nat): int {
    0
  }

  ghost function Blank(): Machine {
    Machine(imap k: nat | Zero(k) == 0 :: Zero(k), 0, 0)
  }

  ghost predicate TagsTo(s: Machine, n: nat) {
    Total(s) && forall k: nat :: s.regs[k] <= n
  }

  lemma TagStep(b: Block, x: nat, s: Machine)
    requires x < |b| && TagsTo(s, x)
    ensures TagsTo(Step(b, Tagging(), x, s), x + 1)
  {
    assert Local(b, Tagging());
  }

  lemma {:induction false} TagsBelow(b: Block, n: nat, s: Machine)
    requires n <= |b| && TagsTo(s, 0) && Local(b, Tagging())
    ensures InBlock(b, Sequence(n)) && TagsTo(Run(b, Tagging(), Sequence(n), s), n)
  {
    hide Local, Run, TagsTo, Step;
    StartTagged(s);
    if n == 0 {
      assert Sequence(n) == [];
      RunNothing(b, s);
    } else {
      TagsBelow(b, n - 1, s);
      assert Sequence(n) == Sequence(n - 1) + [n - 1];
      RunSnoc(b, Tagging(), Sequence(n - 1), n - 1, s);
      TagStep(b, n - 1, Run(b, Tagging(), Sequence(n - 1), s));
    }
  }

  lemma StartTagged(s: Machine)
    requires TagsTo(s, 0)
    ensures Total(s)
  {
  }

  lemma RunNothing(b: Block, s: Machine)
    requires Total(s) && Local(b, Tagging())
    ensures Run(b, Tagging(), [], s) == s
  {
  }

  lemma NoneBetween(b: Block, i: nat, j: nat, z: nat)
    requires i < j < |b| && !Joined(b, i, j)
    ensures !Lower(Classes(b, i, j), i, j)
    ensures Lower(Classes(b, i, j), j, z) ==> !Lower(Classes(b, i, j), z, i)
  {
    assert Joined(b, j, j);
    hide Joined;
  }

  /** i comes right after j. */
  lemma NextTo(b: Block, i: nat, j: nat) returns (p: nat)
    requires i < j < |b| && !Joined(b, i, j)
    ensures var order := Swapped(b, i, j); 0 < p < |order| && order[p] == i && order[p - 1] == j
  {
    hide Joined, Lower, Swapped;
    var order, c := Swapped(b, i, j), Classes(b, i, j);
    SwappedPermutation(b, i, j);
    NoneBetween(b, i, j, i);
    assert i in order && j in order;
    p :| 0 <= p < |order| && order[p] == i;
    var q :| 0 <= q < |order| && order[q] == j;
    assert q < p;
    if q < p - 1 {
      NoneBetween(b, i, j, order[q + 1]);
    }
  }

  /** In that order i finds j's value where it found an earlier one. */
  lemma SwappedDiffers(b: Block, k: nat, i: nat, j: nat)
    requires PlainPair(b, i, j) && Reads(b[i], k) && Writes(b[j], k) && !Joined(b, i, j)
    ensures !SameRun(b, Swapped(b, i, j))
  {
    hide Joined, Local, Run, Swapped, TagsTo;
    var order, sem := Swapped(b, i, j), Tagging();
    var s := Blank();
    TagsStart(b, s);
    SwappedPermutation(b, i, j);
    var p := NextTo(b, i, j);
    TagsBelow(b, i, s);
    ReadsBelow(Run(b, sem, Sequence(i), s), i, k);
    assert order[..p] == order[..p - 1] + [j];
    RunSnoc(b, sem, order[..p - 1], j, s);
    TagOf(b, k, j, Run(b, sem, order[..p - 1], s));
    assert !FindsSame(b, sem, order, p, s);
  }

  lemma TagsStart(b: Block, s: Machine)
    requires s == Blank()
    ensures Local(b, Tagging()) && TagsTo(s, 0) && Total(s)
  {
  }

  lemma ReadsBelow(s: Machine, n: nat, k: nat)
    requires TagsTo(s, n)
    ensures Total(s) && s.regs[k] <= n
  {
  }

  lemma TagOf(b: Block, k: nat, j: nat, s: Machine)
    requires j < |b| && b[j].kind == Plain && Writes(b[j], k) && Total(s) && Total(Step(b, Tagging(), j, s))
    ensures Step(b, Tagging(), j, s).regs[k] == j + 1
  {
  }

  /** All the orders that the graph allows run like the block itself exactly when every reader is
      led to every later writer. */
  lemma AllOrdersRunAlike(b: Block)
    requires Shape(b)
    ensures ReadersLed(b) <==> forall order :: Good(b, order) ==> SameRun(b, order)
  {
    hide Good, SameRun, Joined, KeepsConflicts;
    if ReadersLed(b) {
      forall order | Good(b, order)
        ensures SameRun(b, order)
      {
        FollowsKeeps(b, order);
        GoodPermutation(b, order);
        KeptRunsSame(b, order);
      }
    } else {
      var k: nat, i: nat, j: nat :| PlainPair(b, i, j) && Reads(b[i], k) && Writes(b[j], k) && !Joined(b, i, j);
      SwappedGood(b, i, j);
      SwappedDiffers(b, k, i, j);
    }
  }

  lemma GoodPermutation(b: Block, order: seq<nat>)
    requires Good(b, order)
    ensures Permutation(|b|, order) && InBlock(b, order)
  {
  }
}
