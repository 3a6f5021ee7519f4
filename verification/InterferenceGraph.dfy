/** ra_blifg: filling the interference matrix, and counting the degrees, by walking each block
    backwards from its live-out set. */
module InterferenceGraph {
  import opened Registers
  import opened MachineIR
  import opened Liveness
  import opened Interference
  import opened Coalescing

  // ---- Degrees ----

  ghost function Row(n: nat, g: Graph, x: nat): set<nat> {
    set m: nat | m < n && (x, m) in g
  }

  /** The matrix is symmetric and every node's degree is the number of its neighbours. */
  ghost predicate Counted(ns: seq<Node>, g: Graph) {
    Symmetric(g) && forall x :: 0 <= x < |ns| ==> ns[x].degree == |Row(|ns|, g, x)|
  }

  ghost predicate SameButDegree(a: seq<Node>, b: seq<Node>) {
    |a| == |b| && forall x :: 0 <= x < |a| ==> b[x] == a[x].(degree := b[x].degree)
  }

  lemma RowGrows(n: nat, g: Graph, u: nat, v: nat, x: nat)
    requires u < n && v < n && u != v && (u, v) !in g && (v, u) !in g
    ensures |Row(n, g + {(u, v), (v, u)}, x)| == |Row(n, g, x)| + if x == u || x == v then 1 else 0
  {
    var row, row' := Row(n, g, x), Row(n, g + {(u, v), (v, u)}, x);
    if x == u {
      assert row' == row + {v};
    } else if x == v {
      assert row' == row + {u};
    } else {
      assert row' == row;
    }
  }

  lemma ConnectCounts(ns: seq<Node>, ns': seq<Node>, g: Graph, u: nat, v: nat)
    requires Counted(ns, g) && u < |ns| && v < |ns| && u != v && (u, v) !in g
    requires |ns'| == |ns|
    requires forall x :: 0 <= x < |ns| ==> ns'[x].degree == ns[x].degree + if x == u || x == v then 1 else 0
    ensures Counted(ns', g + {(u, v), (v, u)})
  {
    hide Row;
    assert (v, u) !in g;
    forall x: nat | x < |ns|
      ensures ns'[x].degree == |Row(|ns|, g + {(u, v), (v, u)}, x)|
    {
      RowGrows(|ns|, g, u, v, x);
    }
  }

  /** Add an edge once. */
  method Connect(nodes: array<Node>, ifg: array2<bool>, u: nat, v: nat)
    requires ifg.Length0 == ifg.Length1 == nodes.Length && u < nodes.Length && v < nodes.Length && u != v
    requires Counted(nodes[..], Edges(ifg))
    modifies nodes, ifg
    ensures forall x, y :: 0 <= x < nodes.Length && 0 <= y < nodes.Length ==>
              (ifg[x, y] <==> old(ifg[x, y]) || (x == u && y == v) || (x == v && y == u))
    ensures Counted(nodes[..], Edges(ifg))
    ensures SameButDegree(old(nodes[..]), nodes[..])
  {
    ghost var ns, g := nodes[..], Edges(ifg);
    assert (u, v) in g ==> (v, u) in g;
    if !ifg[u, v] {
      ifg[u, v] := true;
      ifg[v, u] := true;
      nodes[u] := nodes[u].(degree := nodes[u].degree + 1);
      nodes[v] := nodes[v].(degree := nodes[v].degree + 1);
      ConnectCounts(ns, nodes[..], g, u, v);
      assert Edges(ifg) == g + {(u, v), (v, u)};
    }
  }

  // ---- The edges ----

  /** Some definition of the instruction before the n-th meets v at u. */
  ghost predicate DefMeets(i: Inst<nat>, n: nat, after: set<nat>, files: seq<File>, u: nat, v: nat)
    requires n <= |i.defs|
  {
    exists k :: 0 <= k < n && i.defs[k] == u && Meets(i, k, after, files, v)
  }

  /** The same for the instructions of a block from the n-th on. */
  ghost predicate BlockMeets(block: Block<nat>, n: nat, out: set<nat>, files: seq<File>, u: nat, v: nat) {
    exists pc ::
      0 <= n <= pc < |block| && DefMeets(block[pc], |block[pc].defs|, LiveFrom(block, pc + 1, out), files, u, v)
  }

  /** And for the first n blocks. */
  ghost predicate BlocksMeet(blocks: seq<Block<nat>>, n: nat, outs: Sets, files: seq<File>, u: nat, v: nat)
    requires |blocks| == |outs|
  {
    exists b :: 0 <= b < n && b < |blocks| && BlockMeets(blocks[b], 0, outs[b], files, u, v)
  }

  lemma AllBlocksIsInterferes(blocks: seq<Block<nat>>, outs: Sets, files: seq<File>, u: nat, v: nat)
    requires |blocks| == |outs|
    ensures BlocksMeet(blocks, |blocks|, outs, files, u, v) <==> Interferes(blocks, outs, files, u, v)
  {
    if Interferes(blocks, outs, files, u, v) {
      var b, pc :| 0 <= b < |blocks| && 0 <= pc < |blocks[b]| && DefinedAcross(blocks, outs, files, b, pc, u, v);
      assert DefMeets(blocks[b][pc], |blocks[b][pc].defs|, LiveFrom(blocks[b], pc + 1, outs[b]), files, u, v);
      assert BlockMeets(blocks[b], 0, outs[b], files, u, v);
    }
    if BlocksMeet(blocks, |blocks|, outs, files, u, v) {
      var b :| 0 <= b < |blocks| && BlockMeets(blocks[b], 0, outs[b], files, u, v);
      var pc :| 0 <= pc < |blocks[b]| &&
        DefMeets(blocks[b][pc], |blocks[b][pc].defs|, LiveFrom(blocks[b], pc + 1, outs[b]), files, u, v);
      assert DefinedAcross(blocks, outs, files, b, pc, u, v);
    }
  }

  /** The edges of one definition: all live registers of its file but itself and a copy's
      source. */
  method AddDef(i: Inst<nat>, k: nat, live: set<nat>, ghost after: set<nat>, files: seq<File>, nodes: array<Node>,
      ifg: array2<bool>)
    requires k < |i.defs| && live == after - Elements(i.defs[..k])
    requires ifg.Length0 == ifg.Length1 == |files| && i.defs[k] < |files|
    requires nodes.Length == |files| && Counted(nodes[..], Edges(ifg))
    modifies nodes, ifg
    ensures Counted(nodes[..], Edges(ifg)) && SameButDegree(old(nodes[..]), nodes[..])
    ensures forall u, v :: 0 <= u < |files| && 0 <= v < |files| ==>
              (ifg[u, v] <==> old(ifg[u, v]) || (u == i.defs[k] && Meets(i, k, after, files, v))
                              || (v == i.defs[k] && Meets(i, k, after, files, u)))
  {
    var dv := i.defs[k];
    for lv := 0 to |files|
      invariant forall u, v :: 0 <= u < |files| && 0 <= v < |files| ==>
                  (ifg[u, v] <==> old(ifg[u, v]) || (u == dv && v < lv && Meets(i, k, after, files, v))
                                  || (v == dv && u < lv && Meets(i, k, after, files, u)))
      invariant Counted(nodes[..], Edges(ifg)) && SameButDegree(old(nodes[..]), nodes[..])
    {
      if lv in live {
        if lv != dv && !(i.isCopy && |i.uses| > 0 && lv == i.uses[0]) && files[dv] == files[lv] {
          Connect(nodes, ifg, dv, lv);
        }
      }
    }
  }

  method AddInst(i: Inst<nat>, after: set<nat>, files: seq<File>, nodes: array<Node>, ifg: array2<bool>)
    returns (before: set<nat>)
    requires ifg.Length0 == ifg.Length1 == |files| && InstBounded(i, |files|)
    requires nodes.Length == |files| && Counted(nodes[..], Edges(ifg))
    modifies nodes, ifg
    ensures Counted(nodes[..], Edges(ifg)) && SameButDegree(old(nodes[..]), nodes[..])
    ensures before == Before(i, after)
    ensures forall u, v :: 0 <= u < |files| && 0 <= v < |files| ==>
              (ifg[u, v] <==> old(ifg[u, v]) || DefMeets(i, |i.defs|, after, files, u, v)
                              || DefMeets(i, |i.defs|, after, files, v, u))
  {
    hide Meets, Counted, Edges;
    var live := after;
    var d := 0;
    while d < |i.defs|
      invariant 0 <= d <= |i.defs|
      invariant live == after - Elements(i.defs[..d])
      invariant forall u, v :: 0 <= u < |files| && 0 <= v < |files| ==>
                  (ifg[u, v] <==>
                     old(ifg[u, v]) || DefMeets(i, d, after, files, u, v) || DefMeets(i, d, after, files, v, u))
      invariant Counted(nodes[..], Edges(ifg)) && SameButDegree(old(nodes[..]), nodes[..])
    {
      AddDef(i, d, live, after, files, nodes, ifg);
      forall u: nat, v: nat
        ensures DefMeets(i, d + 1, after, files, u, v) <==>
                  DefMeets(i, d, after, files, u, v) || (u == i.defs[d] && Meets(i, d, after, files, v))
      {
        MoreDefs(i, d, after, files, u, v);
      }
      assert i.defs[..d + 1] == i.defs[..d] + [i.defs[d]];
      live := live - {i.defs[d]};
      d := d + 1;
    }
    assert i.defs[..d] == i.defs;
    before := live;
    for u := 0 to |i.uses|
      invariant before == live + Elements(i.uses[..u])
      modifies {}
    {
      assert i.uses[..u + 1] == i.uses[..u] + [i.uses[u]];
      before := before + {i.uses[u]};
    }
    assert i.uses[..|i.uses|] == i.uses;
  }

  lemma MoreDefs(i: Inst<nat>, d: nat, after: set<nat>, files: seq<File>, u: nat, v: nat)
    requires d < |i.defs|
    ensures DefMeets(i, d + 1, after, files, u, v) <==>
              DefMeets(i, d, after, files, u, v) || (u == i.defs[d] && Meets(i, d, after, files, v))
  {
  }

  method AddBlock(block: Block<nat>, out: set<nat>, files: seq<File>, nodes: array<Node>, ifg: array2<bool>)
    requires ifg.Length0 == ifg.Length1 == |files| && BlockBounded(block, |files|)
    requires nodes.Length == |files| && Counted(nodes[..], Edges(ifg))
    modifies nodes, ifg
    ensures Counted(nodes[..], Edges(ifg)) && SameButDegree(old(nodes[..]), nodes[..])
    ensures forall u, v :: 0 <= u < |files| && 0 <= v < |files| ==>
              (ifg[u, v] <==>
                 old(ifg[u, v]) || BlockMeets(block, 0, out, files, u, v) || BlockMeets(block, 0, out, files, v, u))
  {
    var live := out;
    var n := |block|;
    while n > 0
      invariant 0 <= n <= |block| && live == LiveFrom(block, n, out)
      invariant forall u, v :: 0 <= u < |files| && 0 <= v < |files| ==>
                  (ifg[u, v] <==>
                     old(ifg[u, v]) || BlockMeets(block, n, out, files, u, v) || BlockMeets(block, n, out, files, v, u))
      invariant Counted(nodes[..], Edges(ifg)) && SameButDegree(old(nodes[..]), nodes[..])
    {
      hide DefMeets, Before, Counted, Edges;
      n := n - 1;
      forall u: nat, v: nat
        ensures BlockMeets(block, n, out, files, u, v) <==>
                  BlockMeets(block, n + 1, out, files, u, v) || DefMeets(block[n], |block[n].defs|, live, files, u, v)
      {
        MoreInsts(block, n, out, files, u, v);
      }
      live := AddInst(block[n], live, files, nodes, ifg);
    }
  }

  lemma MoreInsts(block: Block<nat>, n: nat, out: set<nat>, files: seq<File>, u: nat, v: nat)
    requires n < |block|
    ensures BlockMeets(block, n, out, files, u, v) <==>
              BlockMeets(block, n + 1, out, files, u, v)
              || DefMeets(block[n], |block[n].defs|, LiveFrom(block, n + 1, out), files, u, v)
  {
    hide DefMeets;
  }

  /** Build the whole matrix: an edge exactly where two registers of a file interfere, and the
      number of its edges at every node. */
  method BuildGraph(blocks: seq<Block<nat>>, outs: Sets, files: seq<File>, nodes: array<Node>)
    returns (ifg: array2<bool>)
    requires |blocks| == |outs| && AllBounded(blocks, |files|)
    requires nodes.Length == |files| && forall x :: 0 <= x < |files| ==> nodes[x].degree == 0
    modifies nodes
    ensures Counted(nodes[..], Edges(ifg)) && SameButDegree(old(nodes[..]), nodes[..])
    ensures fresh(ifg) && ifg.Length0 == ifg.Length1 == |files|
    ensures forall u, v :: 0 <= u < |files| && 0 <= v < |files| ==> (ifg[u, v] <==> Edge(blocks, outs, files, u, v))
  {
    ifg := new bool[|files|, |files|]((_, _) => false);
    NoEdges(nodes[..], Edges(ifg));
    for bi := 0 to |blocks|
      invariant fresh(ifg)
      invariant forall u, v :: 0 <= u < |files| && 0 <= v < |files| ==>
                  (ifg[u, v] <==>
                     BlocksMeet(blocks, bi, outs, files, u, v) || BlocksMeet(blocks, bi, outs, files, v, u))
      invariant Counted(nodes[..], Edges(ifg)) && SameButDegree(old(nodes[..]), nodes[..])
    {
      hide BlockMeets, Counted, Edges;
      AddBlock(blocks[bi], outs[bi], files, nodes, ifg);
      forall u: nat, v: nat
        ensures BlocksMeet(blocks, bi + 1, outs, files, u, v) <==>
                  BlocksMeet(blocks, bi, outs, files, u, v) || BlockMeets(blocks[bi], 0, outs[bi], files, u, v)
      {
        MoreBlocks(blocks, bi, outs, files, u, v);
      }
    }
    forall u: nat, v: nat | u < |files| && v < |files|
      ensures ifg[u, v] <==> Edge(blocks, outs, files, u, v)
    {
      AllBlocksIsInterferes(blocks, outs, files, u, v);
      AllBlocksIsInterferes(blocks, outs, files, v, u);
    }
  }

  lemma NoEdges(ns: seq<Node>, g: Graph)
    requires g == {} && forall x :: 0 <= x < |ns| ==> ns[x].degree == 0
    ensures Counted(ns, g)
  {
    assert forall x :: Row(|ns|, g, x) == {};
  }

  lemma MoreBlocks(blocks: seq<Block<nat>>, bi: nat, outs: Sets, files: seq<File>, u: nat, v: nat)
    requires |blocks| == |outs| && bi < |blocks|
    ensures BlocksMeet(blocks, bi + 1, outs, files, u, v) <==>
              BlocksMeet(blocks, bi, outs, files, u, v) || BlockMeets(blocks[bi], 0, outs[bi], files, u, v)
  {
    hide BlockMeets;
  }
}
