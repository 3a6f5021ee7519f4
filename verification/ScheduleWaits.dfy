/** Scheduling and wait insertion on one block: what scheduling leaves is what wait insertion asks for. */
module ScheduleWaits {
  import opened ScheduleDag
  import opened ScheduleMeaning
  import opened ScheduleOrder
  import opened Schedule
  import opened Permutations
  import ScheduleObserved
  import WaitInsertion

  /** The same instructions as each of the two steps looks at them: wait insertion looks only at
      operands, which the scheduler records as accesses too. */
  ghost predicate Describes(b: Block, items: WaitInsertion.Items) {
    |items| == |b| && forall x :: 0 <= x < |b| ==> SameInst(b[x], items[x])
  }

  ghost predicate SameInst(i: Inst, t: WaitInsertion.Item) {
    && t.load == i.load && (t.term <==> i.kind == Term) && (t.barrier <==> i.kind == Barrier)
    && (forall k :: k in t.sources ==> Reads(i, k))
    && (t.load ==> forall k :: k in t.defs ==> Writes(i, k))
  }

  function Ordered(items: WaitInsertion.Items, order: seq<nat>): (r: WaitInsertion.Items)
    requires forall p :: 0 <= p < |order| ==> order[p] < |items|
    ensures |r| == |order| && forall p :: 0 <= p < |order| ==> r[p] == items[order[p]]
  {
    seq(|order|, p requires 0 <= p < |order| => items[order[p]])
  }

  lemma TermZone(b: Block, i: nat)
    requires Shape(b) && i < |b|
    ensures Zone(b, i) == 2 * Epoch(b, |b|) + 2 <==> b[i].kind == Term
  {
    EpochMonotone(b, i, |b|);
    EpochMonotone(b, i + 1, |b|);
  }

  /** A load stays before the readers of what it brings. */
  lemma LoadFirst(b: Block, items: WaitInsertion.Items, order: seq<nat>, x: nat, y: nat, k: nat)
    requires Shape(b) && Describes(b, items) && Good(b, order) && x < y
    requires WaitInsertion.Brings(items, x, k) && WaitInsertion.Reads(items, y, k)
    ensures Before(order, x, y)
  {
    hide Good, Shape;
    LoadIsPlain(b, x);
    ScheduleObserved.WriterFirst(b, order, k, x, y);
  }

  lemma LoadIsPlain(b: Block, x: nat)
    requires Shape(b) && x < |b| && b[x].load
    ensures b[x].kind == Plain
  {
  }

  /** The scheduled block is as orderly as the block was. */
  lemma OrderlyKept(b: Block, items: WaitInsertion.Items, order: seq<nat>)
    requires Shape(b) && Describes(b, items) && Good(b, order) && WaitInsertion.Orderly(items) && InBlock(b, order)
    ensures WaitInsertion.Orderly(Ordered(items, order))
  {
    var c := Ordered(items, order);
    TrackedKept(b, items, order);
    hide WaitInsertion.Tracked, Shape, Describes, Zone;
    forall p, q | 0 <= p < q < |c| && c[p].term
      ensures c[q].term
    {
      TermKept(b, items, order, p, q);
    }
  }

  lemma TermKept(b: Block, items: WaitInsertion.Items, order: seq<nat>, p: nat, q: nat)
    requires Shape(b) && Describes(b, items) && Good(b, order) && InBlock(b, order) && p < q < |order|
    requires items[order[p]].term
    ensures items[order[q]].term
  {
    hide Shape, Zone, Required;
    TermZone(b, order[p]);
    TermZone(b, order[q]);
    ZoneTop(b, order[q]);
    assert Zone(b, order[p]) <= Zone(b, order[q]);
  }

  lemma ZoneTop(b: Block, i: nat)
    requires Shape(b) && i < |b|
    ensures Zone(b, i) <= 2 * Epoch(b, |b|) + 2
  {
    EpochMonotone(b, i, |b|);
    EpochMonotone(b, i + 1, |b|);
  }

  lemma TrackedKept(b: Block, items: WaitInsertion.Items, order: seq<nat>)
    requires Shape(b) && Describes(b, items) && Good(b, order) && WaitInsertion.Tracked(items) && InBlock(b, order)
    ensures WaitInsertion.Tracked(Ordered(items, order))
  {
    hide Good, Shape, Describes;
    SameSize(b, items);
    var c := Ordered(items, order);
    ScheduleObserved.GoodPartial(b, order);
    forall p: nat, q: nat, k: nat | WaitInsertion.Brings(c, p, k) && WaitInsertion.Brings(c, q, k)
      ensures p == q
    {
      assert WaitInsertion.Brings(items, order[p], k) && WaitInsertion.Brings(items, order[q], k);
    }
    forall p: nat, q: nat, k: nat | WaitInsertion.Brings(c, p, k) && WaitInsertion.Reads(c, q, k)
      ensures p < q
    {
      assert WaitInsertion.Brings(items, order[p], k) && WaitInsertion.Reads(items, order[q], k);
      LoadFirst(b, items, order, order[p], order[q], k);
      PlaceOrder(|b|, order, p, q);
    }
  }

  lemma PlaceOrder(n: nat, order: seq<nat>, p: nat, q: nat)
    requires Partial(n, order) && p < |order| && q < |order| && Before(order, order[p], order[q])
    ensures p < q
  {
  }

  /** schedule_block: the order and the waits.  If the order is one the block allows and the block is
      orderly, every read of a loaded key has a wait of its load's kind in the scheduled code, and
      every load is waited for before the first terminator exactly when nothing after it calls for a
      wait of a kind with a load still open. */
  method ScheduleAndWait(b: Block, items: WaitInsertion.Items) returns (r: Outcome, out: seq<WaitInsertion.Out>)
    requires Shape(b) && Describes(b, items) && WaitInsertion.ItemsOk(items)
    ensures !r.NotWorth? ==> InBlock(b, r.order) && WaitInsertion.Dos(out) == WaitInsertion.Upto(|r.order|)
    ensures !r.NotWorth? ==> WaitInsertion.NeverOver(Ordered(items, r.order), out)
    ensures r.Scheduled? && NoRevisits(b) ==> Good(b, r.order)
    ensures !r.NotWorth? && Good(b, r.order) && WaitInsertion.Orderly(items) ==>
              var c := Ordered(items, r.order);
              && WaitInsertion.Orderly(c) && WaitInsertion.Met(c, |c|, out)
              && (!WaitInsertion.LateAsk(c) <==> forall p: nat :: p < |c| && c[p].load ==>
                    WaitInsertion.InTime(c, out, p))
    ensures !r.NotWorth? && Good(b, r.order) && ScheduleObserved.ObservedLed(b) ==> SameResult(b, r.order)
  {
    hide Shape, Good, NoRevisits, SameResult, SameRun, WaitInsertion.Orderly, WaitInsertion.LateAsk,
         WaitInsertion.InTime, WaitInsertion.Met, WaitInsertion.MetVector, WaitInsertion.Tracked, LongestFirst,
         WaitInsertion.ItemsOk, Describes;
    r := ScheduleBlock(b);
    if r.NotWorth? {
      return r, [];
    }
    SameSize(b, items);
    var c := Ordered(items, r.order);
    OrderedOk(items, r.order);
    out := WaitInsertion.InsertWaits(c);
    if Good(b, r.order) && WaitInsertion.Orderly(items) {
      OrderlyKept(b, items, r.order);
      WaitInsertion.OrderlyParts(c);
    }
  }

  lemma SameSize(b: Block, items: WaitInsertion.Items)
    requires Describes(b, items)
    ensures |items| == |b|
  {
  }

  lemma OrderedOk(items: WaitInsertion.Items, order: seq<nat>)
    requires WaitInsertion.ItemsOk(items) && forall p :: 0 <= p < |order| ==> order[p] < |items|
    ensures WaitInsertion.ItemsOk(Ordered(items, order))
  {
  }
}
