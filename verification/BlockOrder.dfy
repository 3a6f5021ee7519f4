/** build_blk_ord: the order in which blocks are laid out. */
module BlockOrder {
  import opened DivergentCode
  import opened Permutations

  const BLK_ORD_MAX: nat := 8192
  const BLK_STK_MAX: nat := 512

  /** A block still to be placed and the branch target that is suppressed below it. */
  datatype Frame = Frame(bi: nat, supp: nat)

  const NO_BLOCK: nat := 0xFFFF_FFFF

  /** What a placed block pushes; the last frame is taken first. */
  function Pushes(cfg: seq<Block>, w: Frame, top: nat): seq<Frame>
    requires w.bi < |cfg|
  {
    match cfg[w.bi].term
    case Br(t) => if t < |cfg| && t != w.supp && top < BLK_STK_MAX then [Frame(t, w.supp)] else []
    case BrCond(_, yes, no, merge) =>
      if top + 3 > BLK_STK_MAX then []
      else if no != merge then [Frame(merge, w.supp), Frame(no, w.supp), Frame(yes, merge)]
      else [Frame(merge, w.supp), Frame(yes, w.supp)]
    case Ret => []
  }

  /** The depth-first placement. */
  function Walk(cfg: seq<Block>, stk: seq<Frame>, ord: seq<nat>): seq<nat>
    decreases |cfg| - |ord|, |stk|
  {
    if stk == [] || |ord| >= |cfg| then ord
    else
      var n := |stk| - 1;
      var w := stk[n];
      if w.bi >= |cfg| || w.bi in ord then Walk(cfg, stk[..n], ord)
      else Walk(cfg, stk[..n] + Pushes(cfg, w, n), ord + [w.bi])
  }

  // ---- Every order is a permutation ----

  /** Push the targets of a placed block: merge below else below then. */
  method PushTargets(cfg: seq<Block>, w: Frame, below: seq<Frame>) returns (stk: seq<Frame>)
    requires w.bi < |cfg|
    ensures stk == below + Pushes(cfg, w, |below|)
  {
    stk := below;
    match cfg[w.bi].term
    case Br(t) =>
      if t < |cfg| {
        if t != w.supp && |below| < BLK_STK_MAX {
          stk := stk + [Frame(t, w.supp)];
        }
      }
    case BrCond(_, yes, no, merge) =>
      if |below| + 3 <= BLK_STK_MAX {
        stk := stk + [Frame(merge, w.supp)];
        if no != merge {
          stk := stk + [Frame(no, w.supp)];
          stk := stk + [Frame(yes, merge)];
        } else {
          stk := stk + [Frame(yes, w.supp)];
        }
      }
    case Ret =>
  }

  /** The blocks placed so far are those marked as visited. */
  ghost predicate Marked(nb: nat, vis: seq<bool>, ord: seq<nat>) {
    Partial(nb, ord) && |vis| == nb && forall b: nat :: b < nb ==> (vis[b] <==> b in ord)
  }

  /** The walk from the entry. */
  method PlaceReached(cfg: seq<Block>) returns (ord: seq<nat>, vis: seq<bool>)
    ensures ord == Walk(cfg, [Frame(0, NO_BLOCK)], []) && Marked(|cfg|, vis, ord)
    ensures cfg != [] ==> ord != [] && ord[0] == 0
  {
    var nb := |cfg|;
    vis := seq(nb, _ => false);
    ord := [];
    var stk := [Frame(0, NO_BLOCK)];
    while |stk| > 0 && |ord| < nb
      invariant Marked(nb, vis, ord)
      invariant Walk(cfg, stk, ord) == Walk(cfg, [Frame(0, NO_BLOCK)], [])
      invariant if ord == [] then stk == [Frame(0, NO_BLOCK)] else ord[0] == 0
      decreases nb - |ord|, |stk|
    {
      var n := |stk| - 1;
      var w := stk[n];
      stk := stk[..n];
      if w.bi >= nb || vis[w.bi] {
        continue;
      }
      AppendPartial(nb, ord, w.bi);
      vis := vis[w.bi := true];
      ord := ord + [w.bi];
      stk := PushTargets(cfg, w, stk);
    }
    Pigeonhole(nb, ord);
  }

  /** The other blocks, in the order of their numbers. */
  method PlaceRest(nb: nat, reached: seq<nat>, vis: seq<bool>) returns (ord: seq<nat>)
    requires Marked(nb, vis, reached)
    ensures Permutation(nb, ord) && reached <= ord && forall i, j :: |reached| <= i < j < |ord| ==> ord[i] < ord[j]
  {
    ord := reached;
    Pigeonhole(nb, ord);
    var bi := 0;
    while bi < nb && |ord| < nb
      invariant bi <= nb && Partial(nb, ord) && reached <= ord
      invariant forall b: nat :: b < bi ==> b in ord
      invariant forall b: nat :: bi <= b < nb ==> (vis[b] <==> b in ord)
      invariant forall i :: |reached| <= i < |ord| ==> ord[i] < bi
      invariant forall i, j :: |reached| <= i < j < |ord| ==> ord[i] < ord[j]
    {
      if !vis[bi] {
        AppendPartial(nb, ord, bi);
        ord := ord + [bi];
      }
      bi := bi + 1;
    }
    Pigeonhole(nb, ord);
    AllPlaced(nb, ord, bi);
  }

  /** build_blk_ord.  The order is a permutation that starts at the entry, continues with what the walk
      reaches, and ends with the other blocks in the order of their numbers. */
  method BuildBlockOrder(cfg: seq<Block>) returns (ord: seq<nat>)
    requires |cfg| <= BLK_ORD_MAX
    ensures Permutation(|cfg|, ord) && (cfg != [] ==> ord[0] == 0)
    ensures var reached := Walk(cfg, [Frame(0, NO_BLOCK)], []);
            reached <= ord && forall i, j :: |reached| <= i < j < |ord| ==> ord[i] < ord[j]
  {
    hide Walk, Permutation, Marked;
    var reached, vis := PlaceReached(cfg);
    ord := PlaceRest(|cfg|, reached, vis);
  }

  // ---- Nests keep their layout ----

  function Rename(name: seq<nat>, b: nat): nat {
    if b < |name| then name[b] else NO_BLOCK
  }

  function RenameTerm(name: seq<nat>, t: Term): Term {
    match t
    case Br(b) => Br(Rename(name, b))
    case BrCond(c, yes, no, merge) => BrCond(c, Rename(name, yes), Rename(name, no), Rename(name, merge))
    case Ret => Ret
  }

  /** cfg holds the given blocks under other numbers: block i is called name[i]. */
  ghost predicate Named(cfg: seq<Block>, name: seq<nat>, blocks: seq<Block>) {
    && |cfg| == |name| == |blocks| && Partial(|cfg|, name)
    && forall i :: 0 <= i < |blocks| ==> cfg[name[i]] == Block(blocks[i].ops, RenameTerm(name, blocks[i].term))
  }

  /** Visited frames that a nest leaves on the stack. */
  function Stale(code: Code): nat {
    match code
    case Done => 0
    case Step(_, rest) => Stale(rest)
    case IfThen(_, yes, rest) => 1 + Stale(yes) + Stale(rest)
    case IfElse(_, _, no, rest) => 1 + Stale(no) + Stale(rest)
    case While(_, _, _, rest) => Stale(rest)
  }

  /** Stack room a nest needs. */
  function Peak(code: Code): nat {
    match code
    case Done => 1
    case Step(_, rest) => Peak(rest)
    case IfThen(_, yes, rest) => Max(3, Max(1 + Peak(yes), 1 + Stale(yes) + Peak(rest)))
    case IfElse(_, yes, no, rest) => Max(Max(3, 2 + Peak(yes)), Max(1 + Peak(no), 1 + Stale(no) + Peak(rest)))
    case While(_, _, body, rest) => Max(3, Max(1 + Peak(body), Peak(rest)))
  }

  ghost predicate AllSeen(stale: seq<Frame>, ord: seq<nat>) {
    forall i :: 0 <= i < |stale| ==> stale[i].bi in ord
  }

  lemma {:induction false} PopSeen(cfg: seq<Block>, base: seq<Frame>, stale: seq<Frame>, ord: seq<nat>)
    requires AllSeen(stale, ord)
    ensures Walk(cfg, base + stale, ord) == Walk(cfg, base, ord)
    decreases |stale|
  {
    if stale == [] {
      assert base + stale == base;
    } else {
      var n := |stale| - 1;
      assert (base + stale)[..|base| + n] == base + stale[..n];
      PopSeen(cfg, base, stale[..n], ord);
    }
  }

  /** Placing the block called name[at] when all earlier ones are placed. */
  lemma PlaceNext(cfg: seq<Block>, name: seq<nat>, blocks: seq<Block>, base: seq<Frame>, supp: nat, at: nat)
    requires Named(cfg, name, blocks) && at < |blocks|
    ensures var w := Frame(name[at], supp);
            && w.bi < |cfg| && cfg[w.bi].term == RenameTerm(name, blocks[at].term)
            && Walk(cfg, base + [w], name[..at]) == Walk(cfg, base + Pushes(cfg, w, |base|), name[..at + 1])
  {
    hide Walk, Pushes, RenameTerm;
    NamedAt(cfg, name, blocks, at);
    hide Named;
    assert name[..at] + [name[at]] == name[..at + 1];
    WalkStep(cfg, base, Frame(name[at], supp), name[..at]);
  }

  lemma NamedAt(cfg: seq<Block>, name: seq<nat>, blocks: seq<Block>, at: nat)
    requires Named(cfg, name, blocks) && at < |blocks|
    ensures at < |cfg| == |name| && name[at] < |cfg| && cfg[name[at]].term == RenameTerm(name, blocks[at].term)
    ensures name[at] !in name[..at]
  {
    hide RenameTerm;
  }

  lemma WalkStep(cfg: seq<Block>, base: seq<Frame>, w: Frame, ord: seq<nat>)
    requires |ord| < |cfg| && w.bi < |cfg| && w.bi !in ord
    ensures Walk(cfg, base + [w], ord) == Walk(cfg, base + Pushes(cfg, w, |base|), ord + [w.bi])
  {
    hide Pushes;
    var stk := base + [w];
    var n := |stk| - 1;
    assert stk != [] && n == |base| && stk[..n] == base && stk[n] == w;
    assert Walk(cfg, stk, ord) == Walk(cfg, stk[..n] + Pushes(cfg, w, n), ord + [w.bi]);
  }

  /** The suppressed target is none of the first end blocks. */
  ghost predicate Outside(name: seq<nat>, supp: nat, end: nat) {
    forall i :: 0 <= i < end && i < |name| ==> name[i] != supp
  }

  /** The branch that ends a nest. */
  function Tail(name: seq<nat>, end: Term, supp: nat): seq<Frame> {
    if end.Br? && Rename(name, end.target) != supp then [Frame(Rename(name, end.target), supp)] else []
  }

  lemma WalkDone(cfg: seq<Block>, name: seq<nat>, blocks: seq<Block>, ops: seq<Op>, first: nat, end: Term,
      base: seq<Frame>, supp: nat)
    requires Named(cfg, name, blocks) && Placed(blocks, first, Flatten(Done, ops, first, end)) && !end.BrCond?
    requires (end.Br? ==> end.target < |blocks|) && |base| < BLK_STK_MAX
    ensures first < |name| && AllSeen([], name[..first + 1])
    ensures Walk(cfg, base + [Frame(Rename(name, first), supp)], name[..first])
            == Walk(cfg, base + [] + Tail(name, end, supp), name[..first + 1])
  {
    hide Walk;
    DonePlaced(blocks, ops, first, end);
    PlaceNext(cfg, name, blocks, base, supp, first);
    assert base + [] == base;
  }

  lemma {:induction false} WalkNest(cfg: seq<Block>, name: seq<nat>, blocks: seq<Block>, code: Code, ops: seq<Op>,
      first: nat, end: Term, base: seq<Frame>, supp: nat)
      returns (stale: seq<Frame>)
    requires Named(cfg, name, blocks) && Placed(blocks, first, Flatten(code, ops, first, end)) && !end.BrCond?
    requires end.Br? ==> end.target < |blocks|
    requires Outside(name, supp, first + Size(code)) && |base| + Peak(code) <= BLK_STK_MAX
    ensures |stale| <= Stale(code) && first + Size(code) <= |name| && AllSeen(stale, name[..first + Size(code)])
    ensures Walk(cfg, base + [Frame(Rename(name, first), supp)], name[..first])
         == Walk(cfg, base + stale + Tail(name, end, supp), name[..first + Size(code)])
    decreases code, 1
  {
    hide Walk, AllSeen, Outside, Placed, Flatten, Named, Rename, Tail;
    match code
    case Done =>
      stale := [];
      WalkDone(cfg, name, blocks, ops, first, end, base, supp);
    case Step(op, rest) =>
      StepFlatten(op, rest, ops, first, end);
      stale := WalkNest(cfg, name, blocks, rest, ops + [op], first, end, base, supp);
    case IfThen(c, yes, rest) =>
      stale := WalkThen(cfg, name, blocks, c, yes, rest, ops, first, end, base, supp);
    case IfElse(c, yes, no, rest) =>
      stale := WalkElse(cfg, name, blocks, c, yes, no, rest, ops, first, end, base, supp);
    case While(head, c, body, rest) =>
      stale := WalkWhile(cfg, name, blocks, head, c, body, rest, ops, first, end, base, supp);
  }

  lemma Regroup<T>(a: seq<T>, b: seq<T>, c: seq<T>)
    ensures a + b + c == a + (b + c)
  {
  }

  lemma SeenLater(stale: seq<Frame>, name: seq<nat>, m: nat, end: nat)
    requires m <= end <= |name| && AllSeen(stale, name[..m])
    ensures AllSeen(stale, name[..end])
  {
    forall i | 0 <= i < |stale|
      ensures stale[i].bi in name[..end]
    {
      var k :| 0 <= k < m && name[..m][k] == stale[i].bi;
      assert name[..end][k] == stale[i].bi;
    }
  }

  lemma SeenAppend(a: seq<Frame>, b: seq<Frame>, ord: seq<nat>)
    requires AllSeen(a, ord) && AllSeen(b, ord)
    ensures AllSeen(a + b, ord)
  {
  }

  lemma SeenOne(name: seq<nat>, supp: nat, m: nat, end: nat)
    requires m < end <= |name|
    ensures AllSeen([Frame(Rename(name, m), supp)], name[..end])
  {
    assert name[..end][m] == name[m];
  }

  lemma OutsideSmaller(name: seq<nat>, supp: nat, m: nat, end: nat)
    requires m <= end && Outside(name, supp, end)
    ensures Outside(name, supp, m)
    ensures m < end && m < |name| ==> Rename(name, m) != supp
  {
  }

  /** What a placed branch block pushes. */
  lemma PlaceBranch(cfg: seq<Block>, name: seq<nat>, blocks: seq<Block>, base: seq<Frame>, supp: nat, at: nat)
    requires Named(cfg, name, blocks) && at < |blocks| && blocks[at].term.BrCond? && |base| + 3 <= BLK_STK_MAX
    requires blocks[at].term.onFalse < |blocks| && blocks[at].term.merge < |blocks|
    ensures var t := blocks[at].term;
            var n, m, y := Rename(name, t.onFalse), Rename(name, t.merge), Rename(name, t.onTrue);
            Walk(cfg, base + [Frame(Rename(name, at), supp)], name[..at]) ==
            Walk(cfg, base + (if t.onFalse != t.merge then [Frame(m, supp), Frame(n, supp), Frame(y, m)]
                              else [Frame(m, supp), Frame(y, supp)]), name[..at + 1])
  {
    hide Walk;
    PlaceNext(cfg, name, blocks, base, supp, at);
    var t := blocks[at].term;
    assert name[t.onFalse] == name[t.merge] <==> t.onFalse == t.merge;
  }

  lemma {:induction false} WalkThen(cfg: seq<Block>, name: seq<nat>, blocks: seq<Block>, c: nat, yes: Code, rest: Code,
      ops: seq<Op>, first: nat, end: Term, base: seq<Frame>, supp: nat) returns (stale: seq<Frame>)
    requires Named(cfg, name, blocks) && Placed(blocks, first, Flatten(IfThen(c, yes, rest), ops, first, end))
    requires !end.BrCond?
    requires end.Br? ==> end.target < |blocks|
    requires Outside(name, supp, first + 1 + Size(yes) + Size(rest))
    requires |base| + Peak(IfThen(c, yes, rest)) <= BLK_STK_MAX
    ensures var z := first + 1 + Size(yes) + Size(rest);
            && |stale| <= 1 + Stale(yes) + Stale(rest) && z <= |name| && AllSeen(stale, name[..z])
            && Walk(cfg, base + [Frame(Rename(name, first), supp)], name[..first])
                 == Walk(cfg, base + stale + Tail(name, end, supp), name[..z])
    decreases IfThen(c, yes, rest), 0
  {
    hide Walk, AllSeen, Outside, Placed, Flatten, Named, Rename, Tail;
    ThenPlaced(blocks, c, yes, rest, ops, first, end);
    var m := first + 1 + Size(yes);
    var z := m + Size(rest);
    FitsIn(cfg, name, blocks, m, rest, [], end);
    TailTo(name, m, supp);
    var f := Frame(Rename(name, m), supp);
    PlaceBranch(cfg, name, blocks, base, supp, first);
    assert base + [f, Frame(Rename(name, first + 1), supp)] == base + [f] + [Frame(Rename(name, first + 1), supp)];
    OutsideSmaller(name, supp, m, z);
    var st1 := WalkNest(cfg, name, blocks, yes, [], first + 1, Br(m), base + [f], supp);
    var st2 := WalkNest(cfg, name, blocks, rest, [], m, end, base + [f] + st1, supp);
    stale := [f] + st1 + st2;
    SeenOne(name, supp, m, z);
    SeenLater(st1, name, m, z);
    SeenAppend([f], st1, name[..z]);
    SeenAppend([f] + st1, st2, name[..z]);
    Regroup(base, [f], st1);
    Regroup(base, [f] + st1, st2);
  }

  lemma FitsIn(cfg: seq<Block>, name: seq<nat>, blocks: seq<Block>, at: nat, code: Code, ops: seq<Op>, end: Term)
    requires Named(cfg, name, blocks) && Placed(blocks, at, Flatten(code, ops, at, end))
    ensures at + Size(code) <= |blocks| == |name|
  {
  }

  lemma TailTo(name: seq<nat>, m: nat, supp: nat)
    ensures Tail(name, Br(m), Rename(name, m)) == []
    ensures Rename(name, m) != supp ==> Tail(name, Br(m), supp) == [Frame(Rename(name, m), supp)]
  {
  }

  lemma {:induction false} WalkElse(cfg: seq<Block>, name: seq<nat>, blocks: seq<Block>, c: nat, yes: Code, no: Code,
      rest: Code, ops: seq<Op>, first: nat, end: Term, base: seq<Frame>, supp: nat) returns (stale: seq<Frame>)
    requires Named(cfg, name, blocks) && Placed(blocks, first, Flatten(IfElse(c, yes, no, rest), ops, first, end))
    requires !end.BrCond?
    requires end.Br? ==> end.target < |blocks|
    requires Outside(name, supp, first + 1 + Size(yes) + Size(no) + Size(rest))
    requires |base| + Peak(IfElse(c, yes, no, rest)) <= BLK_STK_MAX
    ensures var z := first + 1 + Size(yes) + Size(no) + Size(rest);
            && |stale| <= 1 + Stale(no) + Stale(rest) && z <= |name| && AllSeen(stale, name[..z])
            && Walk(cfg, base + [Frame(Rename(name, first), supp)], name[..first])
                 == Walk(cfg, base + stale + Tail(name, end, supp), name[..z])
    decreases IfElse(c, yes, no, rest), 0
  {
    hide Walk, AllSeen, Outside, Placed, Flatten, Named, Rename, Tail;
    ElsePlaced(blocks, c, yes, no, rest, ops, first, end);
    var e := first + 1 + Size(yes);
    var m := e + Size(no);
    var z := m + Size(rest);
    FitsIn(cfg, name, blocks, m, rest, [], end);
    TailTo(name, m, supp);
    var f, g, h := Frame(Rename(name, m), supp), Frame(Rename(name, e), supp),
        Frame(Rename(name, first + 1), Rename(name, m));
    PlaceBranch(cfg, name, blocks, base, supp, first);
    assert base + [f, g, h] == base + [f] + [g] + [h];
    MergeOutside(cfg, name, blocks, e, m);
    var st1 := WalkNest(cfg, name, blocks, yes, [], first + 1, Br(m), base + [f] + [g], Rename(name, m));
    assert base + [f] + [g] + st1 + Tail(name, Br(m), Rename(name, m)) == base + [f] + [g] + st1;
    PopSeen(cfg, base + [f] + [g], st1, name[..e]);
    OutsideSmaller(name, supp, m, z);
    var st2 := WalkNest(cfg, name, blocks, no, [], e, Br(m), base + [f], supp);
    var st3 := WalkNest(cfg, name, blocks, rest, [], m, end, base + [f] + st2, supp);
    stale := [f] + st2 + st3;
    SeenOne(name, supp, m, z);
    SeenLater(st2, name, m, z);
    SeenAppend([f], st2, name[..z]);
    SeenAppend([f] + st2, st3, name[..z]);
    Regroup(base, [f], st2);
    Regroup(base, [f] + st2, st3);
  }

  /** The block before a loop pushes its head. */
  lemma WalkIn(cfg: seq<Block>, name: seq<nat>, blocks: seq<Block>, base: seq<Frame>, supp: nat, at: nat)
    requires Named(cfg, name, blocks) && at + 1 < |blocks| && blocks[at].term == Br(at + 1) && |base| < BLK_STK_MAX
    requires Rename(name, at + 1) != supp
    ensures Walk(cfg, base + [Frame(Rename(name, at), supp)], name[..at])
         == Walk(cfg, base + [Frame(Rename(name, at + 1), supp)], name[..at + 1])
  {
    hide Walk;
    PlaceNext(cfg, name, blocks, base, supp, at);
  }

  /** The branch back to the head of a loop pushes a block that is placed already, so the walk goes on
      with the block behind the loop. */
  lemma {:induction false} WalkWhile(cfg: seq<Block>, name: seq<nat>, blocks: seq<Block>, head: seq<Op>, c: nat,
      body: Code, rest: Code, ops: seq<Op>, first: nat, end: Term, base: seq<Frame>, supp: nat)
      returns (stale: seq<Frame>)
    requires Named(cfg, name, blocks) && Placed(blocks, first, Flatten(While(head, c, body, rest), ops, first, end))
    requires !end.BrCond?
    requires end.Br? ==> end.target < |blocks|
    requires Outside(name, supp, first + 2 + Size(body) + Size(rest))
    requires |base| + Peak(While(head, c, body, rest)) <= BLK_STK_MAX
    ensures var z := first + 2 + Size(body) + Size(rest);
            && |stale| <= Stale(rest) && z <= |name| && AllSeen(stale, name[..z])
            && Walk(cfg, base + [Frame(Rename(name, first), supp)], name[..first])
                 == Walk(cfg, base + stale + Tail(name, end, supp), name[..z])
    decreases While(head, c, body, rest), 0
  {
    hide Walk, AllSeen, Outside, Placed, Flatten, Named, Rename, Tail;
    WhilePlaced(blocks, head, c, body, rest, ops, first, end);
    var h, m := first + 1, first + 2 + Size(body);
    var z := m + Size(rest);
    FitsIn(cfg, name, blocks, m, rest, [], end);
    OutsideSmaller(name, supp, h, z);
    WalkIn(cfg, name, blocks, base, supp, first);
    var f, g := Frame(Rename(name, m), supp), Frame(Rename(name, h), supp);
    PlaceBranch(cfg, name, blocks, base, supp, h);
    assert base + [f, Frame(Rename(name, h + 1), supp)] == base + [f] + [Frame(Rename(name, h + 1), supp)];
    OutsideSmaller(name, supp, m, z);
    TailTo(name, h, supp);
    var st := WalkNest(cfg, name, blocks, body, [], h + 1, Br(h), base + [f], supp);
    SeenOne(name, supp, h, m);
    SeenAppend(st, [g], name[..m]);
    Regroup(base + [f], st, [g]);
    PopSeen(cfg, base + [f], st + [g], name[..m]);
    stale := WalkNest(cfg, name, blocks, rest, [], m, end, base, supp);
  }

  lemma MergeOutside(cfg: seq<Block>, name: seq<nat>, blocks: seq<Block>, e: nat, m: nat)
    requires Named(cfg, name, blocks) && e <= m < |blocks|
    ensures Outside(name, Rename(name, m), e)
  {
  }

  /** Whatever numbers the blocks of a nest have, with the entry first, the walk recovers the layout
      order: then-region, else-region, merge, at every level. */
  lemma NestOrder(cfg: seq<Block>, name: seq<nat>, code: Code)
    requires Named(cfg, name, Flatten(code, [], 0, Ret)) && name[0] == 0
    requires Peak(code) <= BLK_STK_MAX && |cfg| <= BLK_ORD_MAX
    ensures Walk(cfg, [Frame(0, NO_BLOCK)], []) == name
  {
    hide Walk, Placed, Flatten, AllSeen, Peak, Named, Outside;
    var blocks := Flatten(code, [], 0, Ret);
    WholePlaced(blocks);
    NamedRange(cfg, name, blocks);
    var stale := WalkNest(cfg, name, blocks, code, [], 0, Ret, [], NO_BLOCK);
    assert [] + [Frame(Rename(name, 0), NO_BLOCK)] == [Frame(0, NO_BLOCK)] && name[..0] == [] && name[..|name|] == name;
    assert [] + stale + Tail(name, Ret, NO_BLOCK) == [] + stale;
    PopSeen(cfg, [], stale, name);
    WalkEnds(cfg, name);
  }

  lemma NamedRange(cfg: seq<Block>, name: seq<nat>, blocks: seq<Block>)
    requires Named(cfg, name, blocks)
    ensures |name| == |blocks| == |cfg| && (|cfg| <= BLK_ORD_MAX ==> Outside(name, NO_BLOCK, |cfg|))
  {
  }

  lemma WholePlaced(blocks: seq<Block>)
    ensures Placed(blocks, 0, blocks)
  {
    assert blocks[0..|blocks|] == blocks;
  }

  lemma WalkEnds(cfg: seq<Block>, ord: seq<nat>)
    ensures Walk(cfg, [], ord) == ord
  {
  }
}
