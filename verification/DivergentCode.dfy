/** Nests of divergent conditionals and loops over lane-local state, and the blocks they become. */
module DivergentCode {

  datatype Option<T> = None | Some(value: T)

  /** What the operations and the conditions of one program mean for the state of one lane.  addr
      gives the bits of the addresses that scalar register pairs are taken for. */
  datatype Sem<!L> = Sem(op: (nat, L) -> L, holds: (nat, L) -> bool, addr: nat -> set<nat>,
      use: (nat, set<nat>, L) -> L)

  /** An operation of a lane; taking a scalar register pair for an address; an operation of a lane
      with an address taken before. */
  datatype Op = Lane(id: nat) | Take(value: nat) | With(id: nat, value: nat)

  /** What an operation does to a lane on its own. */
  ghost function Act<L>(sem: Sem<L>, op: Op, l: L): L {
    match op
    case Lane(i) => sem.op(i, l)
    case Take(_) => l
    case With(i, v) => sem.use(i, sem.addr(v), l)
  }

  /** A nest of regions.  No arm returns.  A loop runs its head, tests, and goes on with its body. */
  datatype Code =
    | Done
    | Step(op: Op, rest: Code)
    | IfThen(cond: nat, yes: Code, rest: Code)
    | IfElse(cond: nat, yes: Code, no: Code, rest: Code)
    | While(head: seq<Op>, cond: nat, body: Code, rest: Code)

  /** Terminators.  A conditional branch names its merge block; an if without else has its false
      target as merge. */
  datatype Term = Br(target: nat) | BrCond(cond: nat, onTrue: nat, onFalse: nat, merge: nat) | Ret

  datatype Block = Block(ops: seq<Op>, term: Term)

  ghost function RunOps<L>(sem: Sem<L>, ops: seq<Op>, l: L): L {
    if ops == [] then l else Act(sem, ops[|ops| - 1], RunOps(sem, ops[..|ops| - 1], l))
  }

  /** One lane on its own.  Of a loop that it does not leave nothing is said. */
  ghost function Eval<L>(sem: Sem<L>, code: Code, l: L): L
    decreases code, 0
  {
    match code
    case Done => l
    case Step(op, rest) => Eval(sem, rest, Act(sem, op, l))
    case IfThen(c, yes, rest) => Eval(sem, rest, if sem.holds(c, l) then Eval(sem, yes, l) else l)
    case IfElse(c, yes, no, rest) => Eval(sem, rest, if sem.holds(c, l) then Eval(sem, yes, l) else Eval(sem, no, l))
    case While(head, c, body, rest) =>
      var out :=
        if exists n: nat :: Rounds(sem, head, c, body, l, n).Some? then
          var n: nat :| Rounds(sem, head, c, body, l, n).Some?;
          Rounds(sem, head, c, body, l, n).value
        else l;
      Eval(sem, rest, out)
  }

  /** The lane as it leaves the loop, if it does so after at most n times through the body. */
  ghost function Rounds<L>(sem: Sem<L>, head: seq<Op>, c: nat, body: Code, l: L, n: nat): Option<L>
    decreases body, n + 1
  {
    var l' := RunOps(sem, head, l);
    if !sem.holds(c, l') then Some(l')
    else if n == 0 then None
    else Rounds(sem, head, c, body, Eval(sem, body, l'), n - 1)
  }

  /** The lane leaves every loop it comes to. */
  ghost predicate Stops<L>(sem: Sem<L>, code: Code, l: L)
    decreases code, 0
  {
    match code
    case Done => true
    case Step(op, rest) => Stops(sem, rest, Act(sem, op, l))
    case IfThen(c, yes, rest) =>
      && (sem.holds(c, l) ==> Stops(sem, yes, l))
      && Stops(sem, rest, if sem.holds(c, l) then Eval(sem, yes, l) else l)
    case IfElse(c, yes, no, rest) =>
      && (if sem.holds(c, l) then Stops(sem, yes, l) else Stops(sem, no, l))
      && Stops(sem, rest, if sem.holds(c, l) then Eval(sem, yes, l) else Eval(sem, no, l))
    case While(head, c, body, rest) =>
      exists n: nat ::
        StopsIn(sem, head, c, body, l, n) && Stops(sem, rest, LoopOut(sem, head, c, body, l))
  }

  ghost predicate StopsIn<L>(sem: Sem<L>, head: seq<Op>, c: nat, body: Code, l: L, n: nat)
    decreases body, n + 1
  {
    var l' := RunOps(sem, head, l);
    sem.holds(c, l') ==> n > 0 && Stops(sem, body, l') && StopsIn(sem, head, c, body, Eval(sem, body, l'), n - 1)
  }

  ghost function LoopOut<L>(sem: Sem<L>, head: seq<Op>, c: nat, body: Code, l: L): L {
    Eval(sem, While(head, c, body, Done), l)
  }

  lemma {:induction false} RoundsMore<L>(sem: Sem<L>, head: seq<Op>, c: nat, body: Code, l: L, n: nat, m: nat)
    requires Rounds(sem, head, c, body, l, n).Some? && n <= m
    ensures Rounds(sem, head, c, body, l, m) == Rounds(sem, head, c, body, l, n)
    decreases n
  {
    var l' := RunOps(sem, head, l);
    if sem.holds(c, l') {
      RoundsMore(sem, head, c, body, Eval(sem, body, l'), n - 1, m - 1);
    }
  }

  /** The loop leaves the lane as its rounds do, however many are allowed. */
  lemma OutIsRounds<L>(sem: Sem<L>, head: seq<Op>, c: nat, body: Code, l: L, n: nat)
    requires Rounds(sem, head, c, body, l, n).Some?
    ensures LoopOut(sem, head, c, body, l) == Rounds(sem, head, c, body, l, n).value
    ensures forall rest :: Eval(sem, While(head, c, body, rest), l) == Eval(sem, rest, LoopOut(sem, head, c, body, l))
  {
    hide Rounds;
    forall m: nat | Rounds(sem, head, c, body, l, m).Some?
      ensures Rounds(sem, head, c, body, l, m) == Rounds(sem, head, c, body, l, n)
    {
      RoundsMore(sem, head, c, body, l, if m < n then m else n, if m < n then n else m);
    }
    var out := Rounds(sem, head, c, body, l, n).value;
    forall rest
      ensures Eval(sem, While(head, c, body, rest), l) == Eval(sem, rest, out)
    {
      var m: nat :| Rounds(sem, head, c, body, l, m).Some?;
    }
    assert Eval(sem, Done, out) == out;
  }

  lemma {:induction false} StopsRounds<L>(sem: Sem<L>, head: seq<Op>, c: nat, body: Code, l: L, n: nat)
    requires StopsIn(sem, head, c, body, l, n)
    ensures Rounds(sem, head, c, body, l, n).Some?
    decreases n
  {
    var l' := RunOps(sem, head, l);
    if sem.holds(c, l') {
      StopsRounds(sem, head, c, body, Eval(sem, body, l'), n - 1);
    }
  }

  lemma {:induction false} StopsLonger<L>(sem: Sem<L>, head: seq<Op>, c: nat, body: Code, l: L, n: nat, m: nat)
    requires StopsIn(sem, head, c, body, l, n) && n <= m
    ensures StopsIn(sem, head, c, body, l, m)
    decreases n
  {
    var l' := RunOps(sem, head, l);
    if sem.holds(c, l') {
      StopsLonger(sem, head, c, body, Eval(sem, body, l'), n - 1, m - 1);
    }
  }

  /** Once around the loop. */
  lemma OutUnfolds<L>(sem: Sem<L>, head: seq<Op>, c: nat, body: Code, l: L, n: nat)
    requires StopsIn(sem, head, c, body, l, n)
    ensures var l' := RunOps(sem, head, l);
            LoopOut(sem, head, c, body, l)
            == if sem.holds(c, l') then LoopOut(sem, head, c, body, Eval(sem, body, l')) else l'
    ensures forall rest :: Eval(sem, While(head, c, body, rest), l) == Eval(sem, rest, LoopOut(sem, head, c, body, l))
  {
    StopsRounds(sem, head, c, body, l, n);
    OutIsRounds(sem, head, c, body, l, n);
    var l' := RunOps(sem, head, l);
    if sem.holds(c, l') {
      OutIsRounds(sem, head, c, body, Eval(sem, body, l'), n - 1);
    }
    hide LoopOut;
  }

  /** A lane that leaves a loop is not changed by running its head again. */
  ghost predicate Settled<L(!new)>(sem: Sem<L>, code: Code) {
    match code
    case Done => true
    case Step(_, rest) => Settled(sem, rest)
    case IfThen(_, yes, rest) => Settled(sem, yes) && Settled(sem, rest)
    case IfElse(_, yes, no, rest) => Settled(sem, yes) && Settled(sem, no) && Settled(sem, rest)
    case While(head, c, body, rest) => HeadSettles(sem, head, c) && Settled(sem, body) && Settled(sem, rest)
  }

  ghost predicate HeadSettles<L(!new)>(sem: Sem<L>, head: seq<Op>, c: nat) {
    forall l: L :: !sem.holds(c, RunOps(sem, head, l)) ==>
      RunOps(sem, head, RunOps(sem, head, l)) == RunOps(sem, head, l)
  }

  /** Deepest nesting of regions. */
  function Depth(code: Code): nat {
    match code
    case Done => 0
    case Step(_, rest) => Depth(rest)
    case IfThen(_, yes, rest) => Max(1 + Depth(yes), Depth(rest))
    case IfElse(_, yes, no, rest) => Max(Max(1 + Depth(yes), 1 + Depth(no)), Depth(rest))
    case While(_, _, body, rest) => Max(1 + Depth(body), Depth(rest))
  }

  function Max(a: nat, b: nat): nat {
    if a < b then b else a
  }

  /** Number of blocks. */
  function Size(code: Code): (n: nat)
    ensures n > 0
  {
    match code
    case Done => 1
    case Step(_, rest) => Size(rest)
    case IfThen(_, yes, rest) => 1 + Size(yes) + Size(rest)
    case IfElse(_, yes, no, rest) => 1 + Size(yes) + Size(no) + Size(rest)
    case While(_, _, body, rest) => 2 + Size(body) + Size(rest)
  }

  /** The blocks of a nest in layout order: branch block, then-region, else-region, merge; for a loop,
      the block before it, its head, its body with the branch back, and the block after it.  ops are
      already in the first block, which has number first; end is the last terminator. */
  function Flatten(code: Code, ops: seq<Op>, first: nat, end: Term): (r: seq<Block>)
    ensures |r| == Size(code)
  {
    match code
    case Done => [Block(ops, end)]
    case Step(op, rest) => Flatten(rest, ops + [op], first, end)
    case IfThen(c, yes, rest) =>
      var m := first + 1 + Size(yes);
      [Block(ops, BrCond(c, first + 1, m, m))] + Flatten(yes, [], first + 1, Br(m)) + Flatten(rest, [], m, end)
    case IfElse(c, yes, no, rest) =>
      var f := first + 1 + Size(yes);
      var m := f + Size(no);
      [Block(ops, BrCond(c, first + 1, f, m))] + Flatten(yes, [], first + 1, Br(m)) + Flatten(no, [], f, Br(m))
      + Flatten(rest, [], m, end)
    case While(head, c, body, rest) =>
      var m := first + 2 + Size(body);
      [Block(ops, Br(first + 1))] + [Block(head, BrCond(c, first + 2, m, m))]
      + Flatten(body, [], first + 2, Br(first + 1)) + Flatten(rest, [], m, end)
  }

  // ---- A lane branching alone through the blocks ----

  ghost function Target<L>(sem: Sem<L>, n: nat, t: Term, l: L): nat {
    match t
    case Br(b) => b
    case BrCond(c, yes, no, _) => if sem.holds(c, l) then yes else no
    case Ret => n
  }

  /** One lane after n blocks, from block b on; block |blocks| is the exit. */
  ghost function LaneRun<L>(sem: Sem<L>, blocks: seq<Block>, b: nat, l: L, n: nat): (nat, L)
    decreases n
  {
    if n == 0 || b >= |blocks| then (b, l)
    else
      var l' := RunOps(sem, blocks[b].ops, l);
      LaneRun(sem, blocks, Target(sem, |blocks|, blocks[b].term, l'), l', n - 1)
  }

  /** Some number of blocks after block b with l, the lane is at block e with l'. */
  ghost predicate LaneReaches<L>(sem: Sem<L>, blocks: seq<Block>, b: nat, l: L, e: nat, l': L) {
    exists n: nat :: LaneRun(sem, blocks, b, l, n) == (e, l')
  }

  lemma {:induction false} LaneRunOn<L>(sem: Sem<L>, blocks: seq<Block>, b: nat, l: L, n: nat, m: nat)
    ensures var (b', l') := LaneRun(sem, blocks, b, l, n);
            LaneRun(sem, blocks, b, l, n + m) == LaneRun(sem, blocks, b', l', m)
    decreases n
  {
    if n > 0 && b < |blocks| {
      var l' := RunOps(sem, blocks[b].ops, l);
      LaneRunOn(sem, blocks, Target(sem, |blocks|, blocks[b].term, l'), l', n - 1, m);
    } else if b >= |blocks| {
      assert LaneRun(sem, blocks, b, l, m) == (b, l);
    }
  }

  lemma LaneOn<L>(sem: Sem<L>, blocks: seq<Block>, b: nat, l: L, b1: nat, l1: L, b2: nat, l2: L)
    requires LaneReaches(sem, blocks, b, l, b1, l1) && LaneReaches(sem, blocks, b1, l1, b2, l2)
    ensures LaneReaches(sem, blocks, b, l, b2, l2)
  {
    var n: nat :| LaneRun(sem, blocks, b, l, n) == (b1, l1);
    var m: nat :| LaneRun(sem, blocks, b1, l1, m) == (b2, l2);
    LaneRunOn(sem, blocks, b, l, n, m);
  }

  /** What a lane reaches at the exit is all it can end with. */
  lemma LaneEnd<L>(sem: Sem<L>, blocks: seq<Block>, b: nat, l: L, l1: L, l2: L)
    requires LaneReaches(sem, blocks, b, l, |blocks|, l1) && LaneReaches(sem, blocks, b, l, |blocks|, l2)
    ensures l1 == l2
  {
    var n: nat :| LaneRun(sem, blocks, b, l, n) == (|blocks|, l1);
    var m: nat :| LaneRun(sem, blocks, b, l, m) == (|blocks|, l2);
    if n <= m {
      LaneRunOn(sem, blocks, b, l, n, m - n);
    } else {
      LaneRunOn(sem, blocks, b, l, m, n - m);
    }
  }

  /** part is found in whole at position at. */
  ghost predicate Placed<T>(whole: seq<T>, at: nat, part: seq<T>) {
    at + |part| <= |whole| && whole[at..at + |part|] == part
  }

  lemma PlacedParts<T>(whole: seq<T>, at: nat, a: seq<T>, b: seq<T>)
    requires Placed(whole, at, a + b)
    ensures Placed(whole, at, a) && Placed(whole, at + |a|, b)
  {
    var w := whole[at..at + |a + b|];
    assert w[..|a|] == a && w[|a|..] == b;
    assert whole[at..at + |a|] == w[..|a|];
    assert whole[at + |a|..at + |a| + |b|] == w[|a|..];
  }

  lemma PlacedHead<T>(whole: seq<T>, at: nat, part: seq<T>)
    requires Placed(whole, at, part) && |part| > 0
    ensures at < |whole| && whole[at] == part[0]
  {
    assert whole[at..at + |part|][0] == whole[at];
  }

  ghost function Exit(n: nat, end: Term): nat {
    if end.Br? then end.target else n
  }

  lemma ThreePlaced<T>(whole: seq<T>, at: nat, head: T, y: seq<T>, r: seq<T>)
    requires Placed(whole, at, [head] + y + r)
    ensures at < |whole| && whole[at] == head && Placed(whole, at + 1, y) && Placed(whole, at + 1 + |y|, r)
  {
    PlacedParts(whole, at, [head] + y, r);
    PlacedParts(whole, at, [head], y);
    PlacedHead(whole, at, [head]);
  }

  lemma FourPlaced<T>(whole: seq<T>, at: nat, head: T, y: seq<T>, n: seq<T>, r: seq<T>)
    requires Placed(whole, at, [head] + y + n + r)
    ensures at < |whole| && whole[at] == head && Placed(whole, at + 1, y) && Placed(whole, at + 1 + |y|, n)
    ensures Placed(whole, at + 1 + |y| + |n|, r)
  {
    PlacedParts(whole, at, [head] + y + n, r);
    ThreePlaced(whole, at, head, y, n);
  }

  lemma FlattenThen(c: nat, yes: Code, rest: Code, ops: seq<Op>, first: nat, end: Term)
    ensures var m := first + 1 + Size(yes);
            Flatten(IfThen(c, yes, rest), ops, first, end) ==
            [Block(ops, BrCond(c, first + 1, m, m))] + Flatten(yes, [], first + 1, Br(m)) + Flatten(rest, [], m, end)
  {
  }

  lemma FlattenElse(c: nat, yes: Code, no: Code, rest: Code, ops: seq<Op>, first: nat, end: Term)
    ensures var f := first + 1 + Size(yes);
            var m := f + Size(no);
            Flatten(IfElse(c, yes, no, rest), ops, first, end) ==
            [Block(ops, BrCond(c, first + 1, f, m))] + Flatten(yes, [], first + 1, Br(m)) + Flatten(no, [], f, Br(m))
            + Flatten(rest, [], m, end)
  {
  }

  lemma FlattenWhile(head: seq<Op>, c: nat, body: Code, rest: Code, ops: seq<Op>, first: nat, end: Term)
    ensures var m := first + 2 + Size(body);
            Flatten(While(head, c, body, rest), ops, first, end) ==
            [Block(ops, Br(first + 1))] + [Block(head, BrCond(c, first + 2, m, m))]
            + Flatten(body, [], first + 2, Br(first + 1)) + Flatten(rest, [], m, end)
  {
  }

  lemma WhilePlaced(blocks: seq<Block>, head: seq<Op>, c: nat, body: Code, rest: Code, ops: seq<Op>, first: nat,
      end: Term)
    requires Placed(blocks, first, Flatten(While(head, c, body, rest), ops, first, end))
    ensures var m := first + 2 + Size(body);
            && first + 1 < |blocks| && blocks[first] == Block(ops, Br(first + 1))
            && blocks[first + 1] == Block(head, BrCond(c, first + 2, m, m))
            && Placed(blocks, first + 2, Flatten(body, [], first + 2, Br(first + 1)))
            && Placed(blocks, m, Flatten(rest, [], m, end))
  {
    hide Placed, Flatten;
    FlattenWhile(head, c, body, rest, ops, first, end);
    var m := first + 2 + Size(body);
    var h := Block(head, BrCond(c, first + 2, m, m));
    FourPlaced(blocks, first, Block(ops, Br(first + 1)), [h], Flatten(body, [], first + 2, Br(first + 1)),
               Flatten(rest, [], m, end));
    PlacedHead(blocks, first + 1, [h]);
  }

  /** Where the parts of an if lie. */
  lemma ThenPlaced(blocks: seq<Block>, c: nat, yes: Code, rest: Code, ops: seq<Op>, first: nat, end: Term)
    requires Placed(blocks, first, Flatten(IfThen(c, yes, rest), ops, first, end))
    ensures var m := first + 1 + Size(yes);
            && first < |blocks| && blocks[first] == Block(ops, BrCond(c, first + 1, m, m))
            && Placed(blocks, first + 1, Flatten(yes, [], first + 1, Br(m)))
            && Placed(blocks, m, Flatten(rest, [], m, end))
  {
    hide Placed, Flatten;
    FlattenThen(c, yes, rest, ops, first, end);
    var m := first + 1 + Size(yes);
    ThreePlaced(blocks, first, Block(ops, BrCond(c, first + 1, m, m)), Flatten(yes, [], first + 1, Br(m)),
                Flatten(rest, [], m, end));
  }

  lemma ElsePlaced(blocks: seq<Block>, c: nat, yes: Code, no: Code, rest: Code, ops: seq<Op>, first: nat, end: Term)
    requires Placed(blocks, first, Flatten(IfElse(c, yes, no, rest), ops, first, end))
    ensures var f := first + 1 + Size(yes); var m := f + Size(no);
            && first < |blocks| && blocks[first] == Block(ops, BrCond(c, first + 1, f, m))
            && Placed(blocks, first + 1, Flatten(yes, [], first + 1, Br(m)))
            && Placed(blocks, f, Flatten(no, [], f, Br(m)))
            && Placed(blocks, m, Flatten(rest, [], m, end))
  {
    hide Placed, Flatten;
    FlattenElse(c, yes, no, rest, ops, first, end);
    var f := first + 1 + Size(yes);
    var m := f + Size(no);
    FourPlaced(blocks, first, Block(ops, BrCond(c, first + 1, f, m)),
      Flatten(yes, [], first + 1, Br(m)), Flatten(no, [], f, Br(m)), Flatten(rest, [], m, end));
  }

  lemma LaneEnter<L>(sem: Sem<L>, blocks: seq<Block>, b: nat, l: L)
    requires b < |blocks|
    ensures var l' := RunOps(sem, blocks[b].ops, l);
            LaneReaches(sem, blocks, b, l, Target(sem, |blocks|, blocks[b].term, l'), l')
  {
    assert LaneRun(sem, blocks, b, l, 1) ==
           LaneRun(sem, blocks, Target(sem, |blocks|, blocks[b].term, RunOps(sem, blocks[b].ops, l)),
                   RunOps(sem, blocks[b].ops, l), 0);
  }

  lemma NoOpsRun<L>(sem: Sem<L>, l: L)
    ensures RunOps(sem, [], l) == l
  {
  }

  /** A lane alone in the laid-out blocks does what the nest says. */
  lemma {:induction false} LaneRegion<L>(sem: Sem<L>, blocks: seq<Block>, code: Code, ops: seq<Op>, first: nat,
      end: Term, l: L)
    requires Placed(blocks, first, Flatten(code, ops, first, end)) && !end.BrCond?
    requires Stops(sem, code, RunOps(sem, ops, l))
    ensures LaneReaches(sem, blocks, first, l, Exit(|blocks|, end), Eval(sem, code, RunOps(sem, ops, l)))
    decreases code, 1, 0
  {
    hide Flatten, Placed, LaneReaches;
    match code
    case Done =>
      DonePlaced(blocks, ops, first, end);
      LaneEnter(sem, blocks, first, l);
    case Step(op, rest) =>
      assert (ops + [op])[..|ops|] == ops;
      StepFlatten(op, rest, ops, first, end);
      LaneRegion(sem, blocks, rest, ops + [op], first, end, l);
    case IfThen(c, yes, rest) => LaneThen(sem, blocks, c, yes, rest, ops, first, end, l);
    case IfElse(c, yes, no, rest) => LaneElse(sem, blocks, c, yes, no, rest, ops, first, end, l);
    case While(head, c, body, rest) => LaneWhile(sem, blocks, head, c, body, rest, ops, first, end, l);
  }

  lemma {:induction false} LaneThen<L>(sem: Sem<L>, blocks: seq<Block>, c: nat, yes: Code, rest: Code, ops: seq<Op>,
      first: nat, end: Term, l: L)
    requires Placed(blocks, first, Flatten(IfThen(c, yes, rest), ops, first, end)) && !end.BrCond?
    requires Stops(sem, IfThen(c, yes, rest), RunOps(sem, ops, l))
    ensures LaneReaches(sem, blocks, first, l, Exit(|blocks|, end),
                        Eval(sem, IfThen(c, yes, rest), RunOps(sem, ops, l)))
    decreases IfThen(c, yes, rest), 0, 0
  {
    hide Flatten, Placed, LaneReaches, RunOps;
    var l' := RunOps(sem, ops, l);
    ThenPlaced(blocks, c, yes, rest, ops, first, end);
    var m := first + 1 + Size(yes);
    LaneEnter(sem, blocks, first, l);
    var l2 := if sem.holds(c, l') then Eval(sem, yes, l') else l';
    if sem.holds(c, l') {
      NoOpsRun(sem, l');
      LaneRegion(sem, blocks, yes, [], first + 1, Br(m), l');
      LaneOn(sem, blocks, first, l, first + 1, l', m, l2);
    }
    NoOpsRun(sem, l2);
    LaneRegion(sem, blocks, rest, [], m, end, l2);
    LaneOn(sem, blocks, first, l, m, l2, Exit(|blocks|, end), Eval(sem, rest, l2));
  }

  lemma {:induction false} LaneElse<L>(sem: Sem<L>, blocks: seq<Block>, c: nat, yes: Code, no: Code, rest: Code,
      ops: seq<Op>, first: nat, end: Term, l: L)
    requires Placed(blocks, first, Flatten(IfElse(c, yes, no, rest), ops, first, end)) && !end.BrCond?
    requires Stops(sem, IfElse(c, yes, no, rest), RunOps(sem, ops, l))
    ensures LaneReaches(sem, blocks, first, l, Exit(|blocks|, end),
                        Eval(sem, IfElse(c, yes, no, rest), RunOps(sem, ops, l)))
    decreases IfElse(c, yes, no, rest), 0, 0
  {
    hide Flatten, Placed, LaneReaches, RunOps;
    var l' := RunOps(sem, ops, l);
    ElsePlaced(blocks, c, yes, no, rest, ops, first, end);
    var f := first + 1 + Size(yes);
    var m := f + Size(no);
    LaneEnter(sem, blocks, first, l);
    NoOpsRun(sem, l');
    var l2 := if sem.holds(c, l') then Eval(sem, yes, l') else Eval(sem, no, l');
    if sem.holds(c, l') {
      LaneRegion(sem, blocks, yes, [], first + 1, Br(m), l');
      LaneOn(sem, blocks, first, l, first + 1, l', m, l2);
    } else {
      LaneRegion(sem, blocks, no, [], f, Br(m), l');
      LaneOn(sem, blocks, first, l, f, l', m, l2);
    }
    NoOpsRun(sem, l2);
    LaneRegion(sem, blocks, rest, [], m, end, l2);
    LaneOn(sem, blocks, first, l, m, l2, Exit(|blocks|, end), Eval(sem, rest, l2));
  }

  lemma {:induction false} LaneWhile<L>(sem: Sem<L>, blocks: seq<Block>, head: seq<Op>, c: nat, body: Code, rest: Code,
      ops: seq<Op>, first: nat, end: Term, l: L)
    requires Placed(blocks, first, Flatten(While(head, c, body, rest), ops, first, end)) && !end.BrCond?
    requires Stops(sem, While(head, c, body, rest), RunOps(sem, ops, l))
    ensures LaneReaches(sem, blocks, first, l, Exit(|blocks|, end),
                        Eval(sem, While(head, c, body, rest), RunOps(sem, ops, l)))
    decreases While(head, c, body, rest), 0, 0
  {
    hide Flatten, Placed, LaneReaches, LoopOut, RunOps, Eval, StopsIn;
    var l' := RunOps(sem, ops, l);
    WhilePlaced(blocks, head, c, body, rest, ops, first, end);
    var m := first + 2 + Size(body);
    LaneEnter(sem, blocks, first, l);
    var n: nat :| StopsIn(sem, head, c, body, l', n) && Stops(sem, rest, LoopOut(sem, head, c, body, l'));
    OutUnfolds(sem, head, c, body, l', n);
    LaneLoop(sem, blocks, head, c, body, first + 1, l', n);
    var l2 := LoopOut(sem, head, c, body, l');
    LaneOn(sem, blocks, first, l, first + 1, l', m, l2);
    NoOpsRun(sem, l2);
    LaneRegion(sem, blocks, rest, [], m, end, l2);
    LaneOn(sem, blocks, first, l, m, l2, Exit(|blocks|, end), Eval(sem, rest, l2));
  }

  /** The rounds of a lane in a loop whose head is block h. */
  lemma {:induction false} LaneLoop<L>(sem: Sem<L>, blocks: seq<Block>, head: seq<Op>, c: nat, body: Code, h: nat, l: L,
      n: nat)
    requires var m := h + 1 + Size(body);
             && h < |blocks| && blocks[h] == Block(head, BrCond(c, h + 1, m, m))
             && Placed(blocks, h + 1, Flatten(body, [], h + 1, Br(h)))
    requires StopsIn(sem, head, c, body, l, n)
    ensures LaneReaches(sem, blocks, h, l, h + 1 + Size(body), LoopOut(sem, head, c, body, l))
    decreases body, 2, n
  {
    hide Flatten, Placed, LaneReaches, LoopOut;
    var m := h + 1 + Size(body);
    var l' := RunOps(sem, head, l);
    LaneEnter(sem, blocks, h, l);
    OutUnfolds(sem, head, c, body, l, n);
    if sem.holds(c, l') {
      var l2 := Eval(sem, body, l');
      NoOpsRun(sem, l');
      LaneRegion(sem, blocks, body, [], h + 1, Br(h), l');
      LaneOn(sem, blocks, h, l, h + 1, l', h, l2);
      LaneLoop(sem, blocks, head, c, body, h, l2, n - 1);
      LaneOn(sem, blocks, h, l, h, l2, m, LoopOut(sem, head, c, body, l2));
    }
  }

  lemma DonePlaced(blocks: seq<Block>, ops: seq<Op>, first: nat, end: Term)
    requires Placed(blocks, first, Flatten(Done, ops, first, end))
    ensures first < |blocks| && blocks[first] == Block(ops, end)
  {
    PlacedHead(blocks, first, [Block(ops, end)]);
  }

  lemma StepFlatten(op: Op, rest: Code, ops: seq<Op>, first: nat, end: Term)
    ensures Flatten(Step(op, rest), ops, first, end) == Flatten(rest, ops + [op], first, end)
  {
  }

  lemma LaneAlone<L>(sem: Sem<L>, code: Code, l: L)
    requires Stops(sem, code, l)
    ensures LaneReaches(sem, Flatten(code, [], 0, Ret), 0, l, Size(code), Eval(sem, code, l))
  {
    var blocks := Flatten(code, [], 0, Ret);
    assert blocks[0..|blocks|] == blocks;
    NoOpsRun(sem, l);
    LaneRegion(sem, blocks, code, [], 0, Ret, l);
  }
}
