/** One round of the graph-colouring allocator: liveness, interference, coalescing, simplify and
    select, ending in a colour for every virtual register. */
module GraphColouring {
  import FiniteSets
  import opened Registers
  import opened MachineIR
  import opened Liveness
  import opened Interference
  import opened InterferenceGraph
  import opened Coalescing
  import CopyClasses
  import opened Colourability
  import opened Selection

  // ---- Coalescing all the copies ----

  /** The degrees kept while merging never fall short. */
  ghost predicate DegreesCover(ns: seq<Node>, g: Graph) {
    forall x :: 0 <= x < |ns| && ns[x].inGraph ==> |Neighbours(g, InGraph(ns), x)| <= ns[x].degree
  }

  /** The node table between merges: consistent links and edges, exactly the representatives in
      the graph, degrees that do not fall short, nothing coloured yet. */
  ghost predicate Merging(ns: seq<Node>, rep: seq<nat>, rank: seq<nat>, top: nat, orig: Graph, g: Graph,
      files: seq<File>) {
    && Consistent(ns, rep, rank, top, orig, g) && |ns| == |files| == |rep| && DegreesCover(ns, g)
    && (forall x :: 0 <= x < |ns| ==> (ns[x].inGraph <==> rep[x] == x))
    && (forall x :: 0 <= x < |ns| ==> ns[x].file == files[x] && ns[x].colour == NO_COLOUR && !ns[x].spilled)
  }

  lemma MergingFrame(ns: seq<Node>, ns': seq<Node>, rep: seq<nat>, rank: seq<nat>, top: nat, orig: Graph, g: Graph,
      files: seq<File>)
    requires Merging(ns, rep, rank, top, orig, g, files) && Forest(ns', rep, rank, top) && SameButAlias(ns, ns')
    ensures Merging(ns', rep, rank, top, orig, g, files) && InGraph(ns') == InGraph(ns)
  {
    hide Forest, Covered, Grounded, Lifted, Uniform, Symmetric, SameFiles;
    FilesFrame(ns, ns', rep, g);
    assert InGraph(ns') == InGraph(ns);
  }

  lemma MergingStep(ns: seq<Node>, ns': seq<Node>, rep: seq<nat>, rank: seq<nat>, top: nat, rank': seq<nat>, top': nat,
                    orig: Graph, g: Graph, g': Graph, files: seq<File>, a: nat, b: nat)
    requires Merging(ns, rep, rank, top, orig, g, files) && a < |ns| && b < |ns| && a != b && rep[a] == a && rep[b] == b
    requires Consistent(ns', Merged(rep, a, b), rank', top', orig, g') && Absorbed(ns, ns', b) && DegreesCover(ns', g')
    ensures Merging(ns', Merged(rep, a, b), rank', top', orig, g', files)
  {
    hide Consistent, DegreesCover;
  }

  // ---- The conservative test ----

  ghost function FileBounds(files: seq<File>, lim: Limits): (ks: seq<nat>)
    ensures |ks| == |files| && forall x :: 0 <= x < |files| ==> ks[x] == lim.K(files[x])
  {
    seq(|files|, x requires 0 <= x < |files| => lim.K(files[x]))
  }

  /** What simplify can empty stays so, and what can be coloured stays so. */
  ghost predicate Kept(g: Graph, vs: set<nat>, g': Graph, vs': set<nat>, ks: seq<nat>) {
    && (Reducible(g, vs, ks) ==> Reducible(g', vs', ks))
    && (Colourable(g, vs, ks) ==> Colourable(g', vs', ks))
  }

  /** m is a neighbour of a or b whose degree after a merge is counted as high. */
  ghost predicate Crowds(ns: seq<Node>, g: Graph, a: nat, b: nat, k: nat, m: nat) {
    && m < |ns| && a < |ns| && m != a && m != b && ns[m].inGraph && ns[m].file == ns[a].file
    && ((a, m) in g || (b, m) in g)
    && (if (a, m) in g && (b, m) in g && ns[m].degree > 0 then ns[m].degree - 1 else ns[m].degree) >= k
  }

  ghost function Crowd(ns: seq<Node>, g: Graph, a: nat, b: nat, k: nat, n: nat): set<nat> {
    set m: nat | m < n && Crowds(ns, g, a, b, k, m)
  }

  lemma CrowdStep(ns: seq<Node>, g: Graph, a: nat, b: nat, k: nat, n: nat)
    ensures |Crowd(ns, g, a, b, k, n + 1)| == |Crowd(ns, g, a, b, k, n)| + if Crowds(ns, g, a, b, k, n) then 1 else 0
  {
    hide Crowds;
    if Crowds(ns, g, a, b, k, n) {
      assert Crowd(ns, g, a, b, k, n + 1) == Crowd(ns, g, a, b, k, n) + {n};
    } else {
      assert Crowd(ns, g, a, b, k, n + 1) == Crowd(ns, g, a, b, k, n);
    }
  }

  /** Count the neighbours of a merged node that would have high degree. */
  method CountCrowd(nodes: array<Node>, ifg: array2<bool>, dn: nat, sn: nat, k: nat,
                    ghost rep: seq<nat>, ghost rank: seq<nat>, ghost top: nat) returns (high: nat)
    requires ifg.Length0 == ifg.Length1 == nodes.Length && dn < nodes.Length && sn < nodes.Length
    requires Forest(nodes[..], rep, rank, top) && |rep| == nodes.Length
    requires forall x :: 0 <= x < nodes.Length ==> (nodes[x].inGraph <==> rep[x] == x)
    modifies nodes
    ensures Forest(nodes[..], rep, rank, top) && SameButAlias(old(nodes[..]), nodes[..])
    ensures high == |Crowd(old(nodes[..]), Edges(ifg), dn, sn, k, nodes.Length)|
  {
    hide Forest, Edges, Crowd;
    ghost var ns, g := nodes[..], Edges(ifg);
    high := 0;
    NoCrowd(ns, g, dn, sn, k);
    for m := 0 to nodes.Length
      invariant Forest(nodes[..], rep, rank, top) && SameButAlias(ns, nodes[..])
      invariant high == |Crowd(ns, g, dn, sn, k, m)|
    {
      CrowdStep(ns, g, dn, sn, k, m);
      EdgeTest(ifg, dn, m);
      EdgeTest(ifg, sn, m);
      var r := Find(nodes, m, rep, rank, top);
      if r == m && m != dn && m != sn && nodes[m].inGraph && nodes[m].file == nodes[dn].file
          && (ifg[dn, m] || ifg[sn, m]) {
        var mdeg := nodes[m].degree;
        if ifg[dn, m] && ifg[sn, m] && mdeg > 0 {
          mdeg := mdeg - 1;
        }
        if mdeg >= k {
          high := high + 1;
        }
      }
    }
  }

  lemma NoCrowd(ns: seq<Node>, g: Graph, a: nat, b: nat, k: nat)
    ensures |Crowd(ns, g, a, b, k, 0)| == 0
  {
    assert Crowd(ns, g, a, b, k, 0) == {};
  }

  lemma MergeShape(ns: seq<Node>, ns': seq<Node>, rep: seq<nat>, rank: seq<nat>, top: nat, orig: Graph, g: Graph,
      g': Graph, files: seq<File>, a: nat, b: nat)
    requires Merging(ns, rep, rank, top, orig, g, files) && a < |ns| && b < |ns| && a != b && rep[a] == a && rep[b] == b
    requires Inherits(rep, g, g', a, b) && Absorbed(ns, ns', b)
    ensures InGraph(ns') == InGraph(ns) - {b} && a in InGraph(ns) && b in InGraph(ns)
    ensures MergedInto(g, g', InGraph(ns), a, b) && Symmetric(g) && Symmetric(g')
  {
    hide Forest, Covered, Grounded, Lifted, Uniform, SameFiles, DegreesCover;
    var vs := InGraph(ns);
    forall x, y | x in vs && y in vs && x != b && y != b && x != y
      ensures (x, y) in g' <==> (x, y) in g || (x == a && (b, y) in g) || (y == a && (b, x) in g)
    {
      if (x, y) in g' && (x, y) !in g {
        assert (x, y) in g' - g;
      }
      if x == a && (b, y) in g {
        assert Inherited(rep, g, a, b, a, y);
      }
      if y == a && (b, x) in g {
        assert Inherited(rep, g, a, b, a, x);
      }
    }
  }

  /** A neighbour of both merged nodes loses one neighbour, every other node keeps its number. */
  lemma MergedDegree(g: Graph, g': Graph, vs: set<nat>, a: nat, b: nat, m: nat)
    requires a in vs && b in vs && a != b && m in vs && m != a && m != b
    requires MergedInto(g, g', vs, a, b) && Symmetric(g)
    ensures |Neighbours(g', vs - {b}, m)| == |Neighbours(g, vs, m)| - if (a, m) in g && (b, m) in g then 1 else 0
  {
    var was, now := Neighbours(g, vs, m), Neighbours(g', vs - {b}, m);
    assert (m, a) in g <==> (a, m) in g;
    assert (m, b) in g <==> (b, m) in g;
    if (b, m) in g {
      assert b in was;
      assert now == was - {b} + {a};
    } else {
      assert now == was;
    }
  }

  /** Passing the test bounds the true crowding around the merged node. */
  lemma TestIsSafe(ns: seq<Node>, g: Graph, g': Graph, ks: seq<nat>, a: nat, b: nat)
    requires a in InGraph(ns) && b in InGraph(ns) && a != b && |ks| == |ns|
    requires DegreesCover(ns, g) && Uniform(ns, g) && Symmetric(g) && MergedInto(g, g', InGraph(ns), a, b)
    requires ns[a].file == ns[b].file
    requires forall x, y :: 0 <= x < |ns| && 0 <= y < |ns| && ns[x].file == ns[y].file ==> ks[x] == ks[y]
    ensures |Crowding(g', InGraph(ns) - {b}, ks, a)| <= |Crowd(ns, g, a, b, ks[a], |ns|)|
  {
    var crowding, crowd := Crowding(g', InGraph(ns) - {b}, ks, a), Crowd(ns, g, a, b, ks[a], |ns|);
    forall m | m in crowding
      ensures m in crowd
    {
      MergedDegree(g, g', InGraph(ns), a, b, m);
      assert (a, m) in g || (b, m) in g;
      assert |Neighbours(g, InGraph(ns), m)| <= ns[m].degree;
    }
    FiniteSets.SubsetSize(crowding, crowd);
  }

  /** The degree updates of a merge: the absorbing node is counted up, the others are left. */
  lemma MergeDegrees(ns: seq<Node>, ns': seq<Node>, rep: seq<nat>, g: Graph, g': Graph, a: nat, b: nat)
    requires a in InGraph(ns) && b in InGraph(ns) && a != b && |rep| == |ns|
    requires forall x :: 0 <= x < |ns| ==> (ns[x].inGraph <==> rep[x] == x)
    requires DegreesCover(ns, g) && Symmetric(g) && MergedInto(g, g', InGraph(ns), a, b)
    requires InGraph(ns') == InGraph(ns) - {b} && CountedUp(ns, ns', a, |Gained(rep, g, a, b, |rep|)|)
    ensures DegreesCover(ns', g')
  {
    var vs, gained := InGraph(ns), Gained(rep, g, a, b, |rep|);
    forall x: nat | x < |ns'| && ns'[x].inGraph
      ensures |Neighbours(g', vs - {b}, x)| <= ns'[x].degree
    {
      assert x in InGraph(ns');
      if x == a {
        AbsorbedDegree(ns, rep, g, g', a, b);
      } else {
        MergedDegree(g, g', vs, a, b, x);
      }
    }
  }

  lemma AbsorbedDegree(ns: seq<Node>, rep: seq<nat>, g: Graph, g': Graph, a: nat, b: nat)
    requires a in InGraph(ns) && b in InGraph(ns) && a != b && |rep| == |ns|
    requires forall x :: 0 <= x < |ns| ==> (ns[x].inGraph <==> rep[x] == x)
    requires MergedInto(g, g', InGraph(ns), a, b)
    ensures |Neighbours(g', InGraph(ns) - {b}, a)| <= |Neighbours(g, InGraph(ns), a)| + |Gained(rep, g, a, b, |rep|)|
  {
    var vs, gained := InGraph(ns), Gained(rep, g, a, b, |rep|);
    assert Neighbours(g', vs - {b}, a) <= Neighbours(g, vs, a) + gained;
    FiniteSets.SubsetSize(Neighbours(g', vs - {b}, a), Neighbours(g, vs, a) + gained);
  }

  /** The documented promise of the test: a merge it allows leaves a colourable graph colourable, and
      a graph that simplify can empty one that it still can. */
  lemma MergeIsConservative(ns: seq<Node>, g: Graph, g': Graph, files: seq<File>, lim: Limits, a: nat, b: nat)
    requires a in InGraph(ns) && b in InGraph(ns) && a != b && |files| == |ns|
    requires forall x :: 0 <= x < |ns| ==> ns[x].file == files[x]
    requires DegreesCover(ns, g) && Uniform(ns, g) && Symmetric(g) && Symmetric(g')
    requires MergedInto(g, g', InGraph(ns), a, b)
    requires files[a] == files[b] && |Crowd(ns, g, a, b, lim.K(files[a]), |ns|)| < lim.K(files[a])
    ensures Kept(g, InGraph(ns), g', InGraph(ns) - {b}, FileBounds(files, lim))
  {
    hide DegreesCover, Uniform, Symmetric, MergedInto, Crowd, Crowding, Reducible, Colourable;
    var ks, vs := FileBounds(files, lim), InGraph(ns);
    TestIsSafe(ns, g, g', ks, a, b);
    if Reducible(g, vs, ks) {
      MergeKeepsReducible(g, g', vs, ks, a, b);
    }
    if Colourable(g, vs, ks) {
      MergeKeepsColourable(g, g', vs, ks, a, b);
    }
  }

  /** The classes of dst and src may be merged: they are two, of one file, not joined, and fewer than
      K of their neighbours have K neighbours or more. */
  ghost predicate Mergeable(ns: seq<Node>, rep: seq<nat>, g: Graph, lim: Limits, dst: nat, src: nat)
    requires dst < |rep| == |ns| && src < |rep| && rep[dst] < |ns| && rep[src] < |ns|
  {
    var a, b := rep[dst], rep[src];
    var k := lim.K(ns[a].file);
    a != b && ns[a].file == ns[b].file && (a, b) !in g && |Crowd(ns, g, a, b, k, |ns|)| < k
  }

  /** Nodes, edges and classes at some point of the merging. */
  datatype Merge = Merge(ns: seq<Node>, g: Graph, rep: seq<nat>)

  /** What one copy does: classes that may be merged are, with the edges of both; otherwise nothing but
      links changes. */
  ghost predicate MergeStep(m: Merge, m': Merge, lim: Limits, dst: nat, src: nat) {
    && |m.rep| == |m.ns| && dst < |m.rep| && src < |m.rep| && m.rep[dst] < |m.ns| && m.rep[src] < |m.ns|
    && var a, b := m.rep[dst], m.rep[src];
       if Mergeable(m.ns, m.rep, m.g, lim, dst, src)
       then && m'.rep == Merged(m.rep, a, b) && Absorbed(m.ns, m'.ns, b) && Inherits(m.rep, m.g, m'.g, a, b)
            && CountedUp(m.ns, m'.ns, a, |Gained(m.rep, m.g, a, b, |m.rep|)|)
       else m'.rep == m.rep && m'.g == m.g && SameButAlias(m.ns, m'.ns)
  }

  lemma StepIdle(ns: seq<Node>, ns': seq<Node>, g: Graph, rep: seq<nat>, lim: Limits, dst: nat, src: nat)
    requires |rep| == |ns| && dst < |rep| && src < |rep| && rep[dst] < |ns| && rep[src] < |ns|
    requires !Mergeable(ns, rep, g, lim, dst, src) && SameButAlias(ns, ns')
    ensures MergeStep(Merge(ns, g, rep), Merge(ns', g, rep), lim, dst, src)
  {
    hide Mergeable;
  }

  lemma StepMerged(ns: seq<Node>, mid: seq<Node>, ns': seq<Node>, g: Graph, g': Graph, rep: seq<nat>, lim: Limits,
      dst: nat, src: nat)
    requires |rep| == |ns| && dst < |rep| && src < |rep| && rep[dst] < |ns| && rep[src] < |ns|
    requires Mergeable(ns, rep, g, lim, dst, src) && SameButAlias(ns, mid)
    requires Absorbed(mid, ns', rep[src]) && Inherits(rep, g, g', rep[dst], rep[src])
    requires CountedUp(mid, ns', rep[dst], |Gained(rep, g, rep[dst], rep[src], |rep|)|)
    ensures MergeStep(Merge(ns, g, rep), Merge(ns', g', Merged(rep, rep[dst], rep[src])), lim, dst, src)
  {
    hide Mergeable, Inherits, Gained;
  }

  lemma AliasTwice(a: seq<Node>, b: seq<Node>, c: seq<Node>)
    requires SameButAlias(a, b) && SameButAlias(b, c)
    ensures SameButAlias(a, c)
  {
  }

  /** The copies of the first blocks of a function, in order. */
  function CopiesTo(blocks: seq<Block<nat>>, bi: nat, ii: nat): seq<(nat, nat)>
    requires bi <= |blocks| && (ii == 0 || (bi < |blocks| && ii <= |blocks[bi]|))
    decreases bi, ii
  {
    if ii > 0 then
      var i := blocks[bi][ii - 1];
      CopiesTo(blocks, bi, ii - 1) + if i.isCopy && i.defs != [] && i.uses != [] then [(i.defs[0], i.uses[0])] else []
    else if bi > 0 then CopiesTo(blocks, bi - 1, |blocks[bi - 1]|)
    else []
  }

  /** The merging goes through the copies in order. */
  ghost predicate MergeRun(copies: seq<(nat, nat)>, ms: seq<Merge>, lim: Limits) {
    && |ms| == |copies| + 1
    && forall j :: 0 <= j < |copies| ==> MergeStep(ms[j], ms[j + 1], lim, copies[j].0, copies[j].1)
  }

  lemma MergeRunMore(copies: seq<(nat, nat)>, ms: seq<Merge>, lim: Limits, dst: nat, src: nat, m: Merge)
    requires MergeRun(copies, ms, lim) && MergeStep(ms[|copies|], m, lim, dst, src)
    ensures MergeRun(copies + [(dst, src)], ms + [m], lim)
  {
    hide MergeStep;
    var cs, ns := copies + [(dst, src)], ms + [m];
    forall j | 0 <= j < |cs|
      ensures MergeStep(ns[j], ns[j + 1], lim, cs[j].0, cs[j].1)
    {
      if j < |copies| {
        assert cs[j] == copies[j] && ns[j] == ms[j] && ns[j + 1] == ms[j + 1];
      }
    }
  }

  /** One copy: find both ends, and merge them if they are different, of one file, not joined, and
      pass the conservative test. */
  method MergeCopy(nodes: array<Node>, ifg: array2<bool>, dst: nat, src: nat, lim: Limits,
                   ghost rep: seq<nat>, ghost rank: seq<nat>, ghost top: nat, ghost orig: Graph, ghost files: seq<File>)
    returns (ghost rep': seq<nat>, ghost rank': seq<nat>, ghost top': nat)
    requires ifg.Length0 == ifg.Length1 == nodes.Length && dst < nodes.Length && src < nodes.Length
    requires Merging(nodes[..], rep, rank, top, orig, Edges(ifg), files)
    modifies nodes, ifg
    ensures Merging(nodes[..], rep', rank', top', orig, Edges(ifg), files)
    ensures Kept(old(Edges(ifg)), InGraph(old(nodes[..])), Edges(ifg), InGraph(nodes[..]), FileBounds(files, lim))
    ensures |rep| == |files| == nodes.Length && rep[dst] < |files| && rep[src] < |files|
    ensures MergeStep(Merge(old(nodes[..]), old(Edges(ifg)), rep), Merge(nodes[..], Edges(ifg), rep'), lim, dst, src)
    ensures rep' == rep || (rep' == Merged(rep, rep[dst], rep[src]) && files[dst] == files[src])
  {
    hide Merging, Consistent, Forest, Edges, InGraph, Crowd, Reducible, Colourable, MergeStep, Absorbed, Inherits,
         Gained;
    hide CountedUp, SameButAlias;
    rep', rank', top' := rep, rank, top;
    ghost var ns0 := nodes[..];
    MergingParts(ns0, rep, rank, top, orig, Edges(ifg), files);
    var dn := Find(nodes, dst, rep, rank, top);
    ghost var ns1 := nodes[..];
    MergingFrame(ns0, ns1, rep, rank, top, orig, Edges(ifg), files);
    var sn := Find(nodes, src, rep, rank, top);
    ghost var ns2, g := nodes[..], Edges(ifg);
    MergingFrame(ns1, ns2, rep, rank, top, orig, g, files);
    AliasTwice(ns0, ns1, ns2);
    AliasKeeps(ns0, ns2);
    EdgeTest(ifg, dn, sn);
    if dn == sn || nodes[dn].file != nodes[sn].file || ifg[dn, sn] {
      StepIdle(ns0, ns2, g, rep, lim, dst, src);
      return;
    }
    MergingGraph(ns2, rep, rank, top, orig, g, files);
    ClassFile(ns2, rep, rank, top, orig, g, files, dst);
    ClassFile(ns2, rep, rank, top, orig, g, files, src);
    var k := lim.K(nodes[dn].file);
    CrowdFrame(ns0, ns2, g, dn, sn, k);
    var high := CountCrowd(nodes, ifg, dn, sn, k, rep, rank, top);
    ghost var ns3 := nodes[..];
    MergingFrame(ns2, ns3, rep, rank, top, orig, g, files);
    AliasTwice(ns0, ns2, ns3);
    AliasKeeps(ns2, ns3);
    if high < k {
      CrowdFrame(ns2, ns3, g, dn, sn, k);
      MergingParts(ns3, rep, rank, top, orig, g, files);
      rep', rank', top' := Coalesce(nodes, ifg, dn, sn, rep, rank, top, orig);
      StepMerged(ns0, ns3, nodes[..], g, Edges(ifg), rep, lim, dst, src);
      MergeOutcome(ns3, nodes[..], rep, rank, top, rank', top', orig, g, Edges(ifg), files, lim, dn, sn);
    } else {
      StepIdle(ns0, ns3, g, rep, lim, dst, src);
    }
  }

  lemma AliasKeeps(a: seq<Node>, b: seq<Node>)
    requires SameButAlias(a, b)
    ensures |a| == |b| && forall i :: 0 <= i < |a| ==> b[i].file == a[i].file
  {
  }

  lemma MergingParts(ns: seq<Node>, rep: seq<nat>, rank: seq<nat>, top: nat, orig: Graph, g: Graph, files: seq<File>)
    requires Merging(ns, rep, rank, top, orig, g, files)
    ensures Consistent(ns, rep, rank, top, orig, g) && Forest(ns, rep, rank, top)
    ensures |rep| == |rank| == |ns| == |files|
    ensures forall x :: 0 <= x < |ns| ==> rep[x] < |ns| && rep[rep[x]] == rep[x]
  {
    RootsOf(ns, rep, rank, top);
  }

  /** A register and its representative are of one file. */
  lemma ClassFile(ns: seq<Node>, rep: seq<nat>, rank: seq<nat>, top: nat, orig: Graph, g: Graph, files: seq<File>,
      x: nat)
    requires Merging(ns, rep, rank, top, orig, g, files) && x < |ns|
    ensures |rep| == |files| == |ns| && rep[x] < |ns| && files[rep[x]] == files[x]
  {
    MergingParts(ns, rep, rank, top, orig, g, files);
    hide Forest, Covered, Grounded, Lifted, Uniform, DegreesCover;
  }

  lemma CrowdFrame(ns: seq<Node>, ns': seq<Node>, g: Graph, a: nat, b: nat, k: nat)
    requires SameButAlias(ns, ns')
    ensures Crowd(ns', g, a, b, k, |ns|) == Crowd(ns, g, a, b, k, |ns|)
  {
    forall m: nat
      ensures Crowds(ns', g, a, b, k, m) == Crowds(ns, g, a, b, k, m)
    {
    }
    hide Crowds;
  }

  lemma MergeOutcome(ns: seq<Node>, ns': seq<Node>, rep: seq<nat>, rank: seq<nat>, top: nat, rank': seq<nat>, top': nat,
                     orig: Graph, g: Graph, g': Graph, files: seq<File>, lim: Limits, a: nat, b: nat)
    requires Merging(ns, rep, rank, top, orig, g, files) && a < |ns| && b < |ns| && a != b && rep[a] == a && rep[b] == b
    requires Consistent(ns', Merged(rep, a, b), rank', top', orig, g') && Absorbed(ns, ns', b)
    requires Inherits(rep, g, g', a, b) && CountedUp(ns, ns', a, |Gained(rep, g, a, b, |rep|)|)
    requires ns[a].file == ns[b].file && |Crowd(ns, g, a, b, lim.K(ns[a].file), |ns|)| < lim.K(ns[a].file)
    ensures Merging(ns', Merged(rep, a, b), rank', top', orig, g', files)
    ensures Kept(g, InGraph(ns), g', InGraph(ns'), FileBounds(files, lim))
  {
    hide Merging, Consistent, Inherits, Kept, Crowd, InGraph, DegreesCover, MergedInto, Gained, Uniform, Symmetric;
    MergingGraph(ns, rep, rank, top, orig, g, files);
    MergeShape(ns, ns', rep, rank, top, orig, g, g', files, a, b);
    MergeDegrees(ns, ns', rep, g, g', a, b);
    MergingStep(ns, ns', rep, rank, top, rank', top', orig, g, g', files, a, b);
    MergeIsConservative(ns, g, g', files, lim, a, b);
  }

  /** All copies of the function in order. */
  method MergeCopies(blocks: seq<Block<nat>>, nodes: array<Node>, ifg: array2<bool>, lim: Limits,
                     ghost rep0: seq<nat>, ghost rank0: seq<nat>, ghost orig: Graph, ghost files: seq<File>)
    returns (ghost rep: seq<nat>, ghost rank: seq<nat>, ghost top: nat, ghost ms: seq<Merge>)
    requires ifg.Length0 == ifg.Length1 == nodes.Length && AllBounded(blocks, nodes.Length)
    requires Merging(nodes[..], rep0, rank0, 0, orig, Edges(ifg), files) && CopyClasses.ByCopies(blocks, files, rep0)
    modifies nodes, ifg
    ensures Merging(nodes[..], rep, rank, top, orig, Edges(ifg), files) && CopyClasses.ByCopies(blocks, files, rep)
    ensures Kept(old(Edges(ifg)), InGraph(old(nodes[..])), Edges(ifg), InGraph(nodes[..]), FileBounds(files, lim))
    ensures MergeRun(CopiesTo(blocks, |blocks|, 0), ms, lim) && ms[0] == Merge(old(nodes[..]), old(Edges(ifg)), rep0)
    ensures ms[|ms| - 1] == Merge(nodes[..], Edges(ifg), rep)
  {
    hide Merging, Edges, InGraph, Reducible, Colourable, CopyClasses.ByCopies, CopyClasses.Linked, Kept, MergeStep;
    ghost var g0, vs0, ks := Edges(ifg), InGraph(nodes[..]), FileBounds(files, lim);
    KeptSelf(g0, vs0, ks);
    rep, rank, top := rep0, rank0, 0;
    ms := [Merge(nodes[..], Edges(ifg), rep)];
    ghost var start := ms[0];
    for bi := 0 to |blocks|
      invariant MergeRun(CopiesTo(blocks, bi, 0), ms, lim) && ms[0] == start
      invariant ms[|ms| - 1] == Merge(nodes[..], Edges(ifg), rep)
      invariant Merging(nodes[..], rep, rank, top, orig, Edges(ifg), files)
      invariant Kept(g0, vs0, Edges(ifg), InGraph(nodes[..]), ks) && CopyClasses.ByCopies(blocks, files, rep)
    {
      var block := blocks[bi];
      assert BlockBounded(block, nodes.Length);
      for ii := 0 to |block|
        invariant MergeRun(CopiesTo(blocks, bi, ii), ms, lim) && ms[0] == start
        invariant ms[|ms| - 1] == Merge(nodes[..], Edges(ifg), rep)
        invariant Merging(nodes[..], rep, rank, top, orig, Edges(ifg), files)
        invariant Kept(g0, vs0, Edges(ifg), InGraph(nodes[..]), ks) && CopyClasses.ByCopies(blocks, files, rep)
      {
        var i := block[ii];
        assert InstBounded(i, nodes.Length);
        if i.isCopy && |i.defs| >= 1 && |i.uses| >= 1 {
          ghost var was, g1, vs1 := rep, Edges(ifg), InGraph(nodes[..]);
          rep, rank, top := MergeCopy(nodes, ifg, i.defs[0], i.uses[0], lim, rep, rank, top, orig, files);
          MergeRunMore(CopiesTo(blocks, bi, ii), ms, lim, i.defs[0], i.uses[0], Merge(nodes[..], Edges(ifg), rep));
          ms := ms + [Merge(nodes[..], Edges(ifg), rep)];
          KeptTwice(g0, vs0, g1, vs1, Edges(ifg), InGraph(nodes[..]), ks);
          if rep != was {
            CopyIsLink(blocks, files, bi, ii);
            CopyClasses.MergedByCopies(blocks, files, was, i.defs[0], i.uses[0]);
          }
        }
      }
    }
  }

  lemma KeptTwice(g0: Graph, vs0: set<nat>, g1: Graph, vs1: set<nat>, g2: Graph, vs2: set<nat>, ks: seq<nat>)
    requires Kept(g0, vs0, g1, vs1, ks) && Kept(g1, vs1, g2, vs2, ks)
    ensures Kept(g0, vs0, g2, vs2, ks)
  {
    hide Reducible, Colourable;
  }

  lemma KeptSelf(g: Graph, vs: set<nat>, ks: seq<nat>)
    ensures Kept(g, vs, g, vs, ks)
  {
    hide Reducible, Colourable;
  }

  lemma CopyIsLink(blocks: seq<Block<nat>>, files: seq<File>, b: nat, i: nat)
    requires b < |blocks| && i < |blocks[b]| && InstBounded(blocks[b][i], |files|)
    requires var x := blocks[b][i]; x.isCopy && |x.defs| >= 1 && |x.uses| >= 1 && files[x.defs[0]] == files[x.uses[0]]
    ensures var x := blocks[b][i]; CopyClasses.Linked(blocks, files, x.defs[0], x.uses[0])
  {
    var x := blocks[b][i];
    assert CopyClasses.Copies(blocks[b][i], x.defs[0], x.uses[0]);
  }

  // ---- The start of a round ----

  ghost function Identity(n: nat): (s: seq<nat>)
    ensures |s| == n && forall x :: 0 <= x < n ==> s[x] == x
  {
    seq(n, x => x)
  }

  ghost function Zeros(n: nat): (s: seq<nat>)
    ensures |s| == n && forall x :: 0 <= x < n ==> s[x] == 0
  {
    seq(n, x => 0)
  }

  /** The matrix holds an irreflexive, symmetric relation within files. */
  ghost predicate ProperMatrix(g: Graph, files: seq<File>) {
    && Symmetric(g)
    && (forall u, v :: (u, v) in g ==> u < |files| && v < |files| && u != v && files[u] == files[v])
  }

  lemma EdgesProper(blocks: seq<Block<nat>>, outs: Sets, files: seq<File>, g: Graph)
    requires |blocks| == |outs|
    requires forall u: nat, v: nat :: (u, v) in g <==> u < |files| && v < |files| && Edge(blocks, outs, files, u, v)
    ensures ProperMatrix(g, files)
  {
    forall u, v | (u, v) in g
      ensures (v, u) in g && u != v && files[u] == files[v]
    {
      assert Edge(blocks, outs, files, u, v);
      assert Edge(blocks, outs, files, v, u);
    }
  }

  lemma StartMerging(ns: seq<Node>, g: Graph, files: seq<File>)
    requires |ns| == |files| && ProperMatrix(g, files)
    requires forall x :: 0 <= x < |ns| ==> Fresh(ns[x], files[x], x)
    requires Counted(ns, g)
    ensures Merging(ns, Identity(|ns|), Zeros(|ns|), 0, g, g, files)
  {
    StartDegrees(ns, g, files);
    hide DegreesCover, Counted;
  }

  lemma StartDegrees(ns: seq<Node>, g: Graph, files: seq<File>)
    requires |ns| == |files| && ProperMatrix(g, files) && Counted(ns, g)
    requires forall x :: 0 <= x < |ns| ==> Fresh(ns[x], files[x], x)
    ensures DegreesCover(ns, g)
  {
    forall x | 0 <= x < |ns|
      ensures |Neighbours(g, InGraph(ns), x)| <= ns[x].degree
    {
      FiniteSets.SubsetSize(Neighbours(g, InGraph(ns), x), Row(|ns|, g, x));
    }
  }

  predicate Fresh(x: Node, f: File, i: nat) {
    x.file == f && x.colour == NO_COLOUR && !x.spilled && x.alias == i && x.inGraph
  }

  // ---- From the merged graph to colours ----

  lemma ReadyToSimplify(ns: seq<Node>, rep: seq<nat>, rank: seq<nat>, top: nat, orig: Graph, g: Graph, files: seq<File>,
                        ns': seq<Node>, lim: Limits)
    requires Merging(ns, rep, rank, top, orig, g, files) && SameButLinks(ns, ns') && DegreesExact(ns', g)
    ensures Simplifying(ns', ns', g, lim, [], [])
  {
    hide DegreesExact;
  }

  lemma ReadyToSelect(start: seq<Node>, ns: seq<Node>, rep: seq<nat>, rank: seq<nat>, top: nat, orig: Graph, g: Graph,
                      files: seq<File>, before: seq<Node>, lim: Limits, stack: seq<nat>, low: seq<bool>)
    requires Merging(before, rep, rank, top, orig, g, files) && SameButLinks(before, start)
    requires Forest(start, rep, rank, top)
    requires Simplifying(start, ns, g, lim, stack, low)
    ensures Selecting(start, ns, rep, rank, top, g, lim, stack, low, |stack|)
  {
    MergingParts(before, rep, rank, top, orig, g, files);
    ForestByAlias(start, ns, rep, rank, top);
    FilesFrame(before, ns, rep, g);
    hide Forest, Simplifying, Uniform, SameFiles;
    SimplifiedStack(start, ns, g, lim, stack, low);
    hide StackOk;
    NothingChosen(ns, g, lim, stack, low);
  }

  lemma SimplifiedStack(start: seq<Node>, ns: seq<Node>, g: Graph, lim: Limits, stack: seq<nat>, low: seq<bool>)
    requires Simplifying(start, ns, g, lim, stack, low)
    ensures StackOk(start, ns, g, lim, stack, low) && Symmetric(g)
    ensures |ns| == |start| && |stack| == |low| && forall i :: 0 <= i < |stack| ==> stack[i] < |ns|
    ensures forall x :: 0 <= x < |ns| ==> ns[x] == start[x].(inGraph := ns[x].inGraph, degree := ns[x].degree)
  {
  }

  lemma NothingChosen(ns: seq<Node>, g: Graph, lim: Limits, stack: seq<nat>, low: seq<bool>)
    requires |stack| == |low| && (forall i :: 0 <= i < |stack| ==> stack[i] < |ns|)
    requires forall x :: 0 <= x < |ns| ==> ns[x].colour == NO_COLOUR && !ns[x].spilled
    ensures Chosen(ns, g, lim, stack, low, |stack|)
  {
  }

  // ---- Handing colours to coalesced nodes ----

  /** Every node has its representative's colour and spill flag. */
  ghost predicate Handed(ns: seq<Node>, ns': seq<Node>, rep: seq<nat>, k: nat) {
    && |ns'| == |ns| == |rep| && k <= |ns|
    && (forall x :: 0 <= x < |ns| ==> rep[x] < |ns|)
    && (forall x :: 0 <= x < |ns| ==>
          && ns'[x].file == ns[x].file
          && ns'[x].colour == (if x < k then ns[rep[x]].colour else ns[x].colour)
          && ns'[x].spilled == (if x < k then ns[rep[x]].spilled else ns[x].spilled))
  }

  method HandOut(nodes: array<Node>, ghost rep: seq<nat>, ghost rank: seq<nat>, ghost top: nat)
    requires Forest(nodes[..], rep, rank, top)
    modifies nodes
    ensures Handed(old(nodes[..]), nodes[..], rep, nodes.Length)
  {
    hide Forest, Handed;
    ghost var ns := nodes[..];
    StartHanding(ns, rep, rank, top);
    for n := 0 to nodes.Length
      invariant Forest(nodes[..], rep, rank, top)
      invariant Handed(ns, nodes[..], rep, n)
    {
      ghost var before := nodes[..];
      var r := Find(nodes, n, rep, rank, top);
      ghost var mid := nodes[..];
      if r != n {
        nodes[n] := nodes[n].(colour := nodes[r].colour, spilled := nodes[r].spilled);
        ForestByAlias(mid, nodes[..], rep, rank, top);
      }
      HandStep(ns, before, mid, nodes[..], rep, n);
    }
  }

  lemma StartHanding(ns: seq<Node>, rep: seq<nat>, rank: seq<nat>, top: nat)
    requires Forest(ns, rep, rank, top)
    ensures Selection.Roots(rep, |ns|) && Handed(ns, ns, rep, 0)
  {
    RootsOf(ns, rep, rank, top);
  }

  lemma HandStep(ns: seq<Node>, before: seq<Node>, mid: seq<Node>, after: seq<Node>, rep: seq<nat>, n: nat)
    requires Handed(ns, before, rep, n) && Selection.Roots(rep, |ns|) && n < |ns| && SameButAlias(before, mid)
    requires var r := rep[n];
             after == if r != n then mid[n := mid[n].(colour := mid[r].colour, spilled := mid[r].spilled)] else mid
    ensures Handed(ns, after, rep, n + 1)
  {
    var r := rep[n];
    assert rep[r] == r;
    assert mid[r].colour == ns[r].colour && mid[r].spilled == ns[r].spilled;
    forall x | 0 <= x < |ns|
      ensures after[x].file == ns[x].file
      ensures after[x].colour == (if x < n + 1 then ns[rep[x]].colour else ns[x].colour)
      ensures after[x].spilled == (if x < n + 1 then ns[rep[x]].spilled else ns[x].spilled)
    {
    }
  }

  /** A colour in the file's range for every node that is not spilled, and different colours at
      the two ends of every original edge. */
  ghost predicate GoodColours(ns: seq<Node>, orig: Graph, lim: Limits) {
    && (forall x :: 0 <= x < |ns| ==> InRange(lim, ns[x]))
    && (forall x, y :: (x, y) in orig ==> x < |ns| && y < |ns| && Different(ns[x], ns[y]))
  }

  /** The colours of its file are all taken by registers that interfere with x or a register merged
      with it. */
  ghost predicate OutOfColours(ns: seq<Node>, rep: seq<nat>, orig: Graph, lim: Limits, x: nat)
    requires x < |ns| == |rep|
  {
    forall r :: lim.Low(ns[x].file) <= r < lim.High(ns[x].file) ==> TakenNear(ns, rep, orig, x, r)
  }

  ghost predicate TakenNear(ns: seq<Node>, rep: seq<nat>, orig: Graph, x: nat, r: int)
    requires x < |ns| == |rep|
  {
    exists u: nat, v: nat :: u < |ns| && v < |ns| && rep[u] == rep[x] && (u, v) in orig && ns[v].colour == r
  }

  /** A register without a colour had none left to take. */
  lemma SpilledIsOut(start: seq<Node>, ns: seq<Node>, ns': seq<Node>, rep: seq<nat>, rank: seq<nat>, top: nat,
      orig: Graph, g: Graph, lim: Limits, stack: seq<nat>, low: seq<bool>, x: nat)
    requires Selecting(start, ns, rep, rank, top, g, lim, stack, low, 0) && Grounded(rep, orig, g)
    requires forall x :: 0 <= x < |ns| ==> !ns[x].inGraph
    requires Handed(ns, ns', rep, |ns|) && x < |ns| && ns'[x].spilled
    ensures OutOfColours(ns', rep, orig, lim, x)
  {
    hide Forest, Lifted, Uniform, StackOk, InRange, Different, Grounded;
    var n := rep[x];
    PoppedBlocked(start, ns, rep, rank, top, g, lim, stack, low, n);
    forall r | lim.Low(ns'[x].file) <= r < lim.High(ns'[x].file)
      ensures TakenNear(ns', rep, orig, x, r)
    {
      assert Taken(ns, g, n, r);
      var y: nat :| y < |ns| && (n, y) in g && ns[y].colour == r;
      ColouredIsRoot(start, ns, rep, rank, top, g, lim, stack, low, y);
      GroundedAt(rep, orig, g, n, y);
      var u: nat, v: nat :| u < |rep| && v < |rep| && rep[u] == n && rep[v] == y && (u, v) in orig;
      assert ns'[v].colour == r;
    }
  }

  lemma GroundedAt(rep: seq<nat>, orig: Graph, g: Graph, x: nat, y: nat)
    requires Grounded(rep, orig, g) && (x, y) in g && x < |rep| && y < |rep| && rep[x] == x && rep[y] == y
    ensures Joined(rep, orig, x, y)
  {
  }

  lemma PoppedBlocked(start: seq<Node>, ns: seq<Node>, rep: seq<nat>, rank: seq<nat>, top: nat, g: Graph,
                      lim: Limits, stack: seq<nat>, low: seq<bool>, n: nat)
    requires Selecting(start, ns, rep, rank, top, g, lim, stack, low, 0) && n < |ns| && ns[n].spilled
    ensures Blocked(ns, g, lim, n)
  {
    hide Forest, Lifted, Uniform, StackOk, InRange, Different, Blocked;
    assert n in stack[0..];
  }

  lemma ColouredIsRoot(start: seq<Node>, ns: seq<Node>, rep: seq<nat>, rank: seq<nat>, top: nat, g: Graph,
                       lim: Limits, stack: seq<nat>, low: seq<bool>, y: nat)
    requires Selecting(start, ns, rep, rank, top, g, lim, stack, low, 0) && y < |ns| && ns[y].colour != NO_COLOUR
    ensures |rep| == |ns| && rep[y] == y
  {
    hide Forest, Lifted, Uniform, StackOk, InRange, Different, Blocked;
    assert y in stack[0..];
    var i :| 0 <= i < |stack| && stack[i] == y;
    StackHoldsRoots(start, ns, rep, g, lim, stack, low, i);
  }

  /** With low nodes only, every register gets a colour. */
  lemma AllLowColoured(start: seq<Node>, ns: seq<Node>, ns': seq<Node>, rep: seq<nat>, rank: seq<nat>, top: nat,
      g: Graph, lim: Limits, stack: seq<nat>, low: seq<bool>)
    requires Selecting(start, ns, rep, rank, top, g, lim, stack, low, 0) && AllLow(low)
    requires Handed(ns, ns', rep, |ns|)
    ensures forall x :: 0 <= x < |ns| ==> !ns'[x].spilled
  {
    hide Forest, Lifted, Uniform, StackOk, InRange, Different, Blocked;
    forall n: nat | n < |ns|
      ensures !ns[n].spilled
    {
      if n in stack[0..] {
        var i :| 0 <= i < |stack| && stack[i] == n;
      }
    }
  }

  lemma PoppedInRange(start: seq<Node>, ns: seq<Node>, rep: seq<nat>, rank: seq<nat>, top: nat, g: Graph,
                      lim: Limits, stack: seq<nat>, low: seq<bool>, x: nat)
    requires Selecting(start, ns, rep, rank, top, g, lim, stack, low, 0) && x < |ns|
    requires forall y :: 0 <= y < |ns| ==> !ns[y].inGraph
    ensures rep[x] < |ns| && InRange(lim, ns[rep[x]]) && ns[rep[x]].file == ns[x].file
  {
    hide Forest, Lifted, Uniform, Blocked, InRange, Different;
    var r := rep[x];
    assert rep[r] == r;
    assert r in stack;
    var i :| 0 <= i < |stack| && stack[i] == r;
  }

  lemma SelectedDiffers(start: seq<Node>, ns: seq<Node>, rep: seq<nat>, rank: seq<nat>, top: nat, orig: Graph, g: Graph,
                        lim: Limits, stack: seq<nat>, low: seq<bool>, x: nat, y: nat)
    requires Selecting(start, ns, rep, rank, top, g, lim, stack, low, 0) && Covered(rep, orig, g) && (x, y) in orig
    ensures x < |ns| == |rep| && y < |ns| && rep[x] < |ns| && rep[y] < |ns| && Different(ns[rep[x]], ns[rep[y]])
  {
    hide Forest, Lifted, Uniform, Blocked, InRange, StackOk;
    assert (rep[x], rep[y]) in g;
  }

  lemma SelectedIsGood(start: seq<Node>, ns: seq<Node>, ns': seq<Node>, rep: seq<nat>, rank: seq<nat>, top: nat,
      orig: Graph, g: Graph, lim: Limits, stack: seq<nat>, low: seq<bool>)
    requires Selecting(start, ns, rep, rank, top, g, lim, stack, low, 0) && Covered(rep, orig, g)
    requires forall x :: 0 <= x < |ns| ==> !ns[x].inGraph
    requires Handed(ns, ns', rep, |ns|)
    ensures GoodColours(ns', orig, lim)
  {
    hide Selecting, Covered;
    forall x | 0 <= x < |ns'|
      ensures InRange(lim, ns'[x])
    {
      PoppedInRange(start, ns, rep, rank, top, g, lim, stack, low, x);
    }
    forall x, y | (x, y) in orig
      ensures x < |ns'| && y < |ns'| && Different(ns'[x], ns'[y])
    {
      SelectedDiffers(start, ns, rep, rank, top, orig, g, lim, stack, low, x, y);
    }
  }

  // ---- The whole round ----

  lemma {:induction false} SuccessorsInRange<R>(block: Block<R>, n: nat, succs: seq<nat>, uncond: bool, nb: nat)
    requires n <= |block| && forall i :: 0 <= i < |succs| ==> succs[i] < nb
    ensures forall i :: 0 <= i < |ScanBack(block, n, succs, uncond, nb).0| ==>
              ScanBack(block, n, succs, uncond, nb).0[i] < nb
    decreases n
  {
    if n > 0 && IsTerminator(block[n - 1]) {
      var c := block[n - 1].control;
      SuccessorsInRange(block, n - 1, AddTarget(succs, c, nb), uncond || Unconditional(c), nb);
    }
  }

  /** The flow graph of the function and its block summaries. */
  ghost function FlowOf(blocks: seq<Block<nat>>): (f: Flow)
    ensures Describes(blocks, f)
  {
    Flow(seq(|blocks|, b requires 0 <= b < |blocks| => Successors(blocks[b], b, |blocks|)),
         seq(|blocks|, b requires 0 <= b < |blocks| => DefUse(blocks[b], |blocks[b]|).0),
         seq(|blocks|, b requires 0 <= b < |blocks| => DefUse(blocks[b], |blocks[b]|).1))
  }

  lemma DescribesOne(blocks: seq<Block<nat>>, f: Flow)
    requires Describes(blocks, f)
    ensures f == FlowOf(blocks)
  {
    var f' := FlowOf(blocks);
    assert f.succs == f'.succs && f.def == f'.def && f.use == f'.use;
  }

  /** The registers live into each block are exactly those some path reads before writing. */
  ghost predicate ExactLiveness(blocks: seq<Block<nat>>, outs: Sets) {
    && |outs| == |blocks| && FlowOf(blocks).Valid()
    && (forall b, v :: 0 <= b < |blocks| ==> (v in LiveFrom(blocks[b], 0, outs[b]) <==> Live(FlowOf(blocks), b, v)))
  }

  /** The limit on passes is enough for the function: whatever is live out of a block is read from
      there with fewer retreating edges. */
  ghost predicate Settles(blocks: seq<Block<nat>>) {
    FlowOf(blocks).Valid() && Near(FlowOf(blocks), MAX_PASSES - 1)
  }

  lemma FewBlocksSettle(blocks: seq<Block<nat>>)
    requires |blocks| + 1 < MAX_PASSES
    ensures Settles(blocks)
  {
    ValidFlow(blocks, FlowOf(blocks));
    EnoughPasses(FlowOf(blocks));
  }

  /** Block summaries and liveness of the function. */
  method LiveOuts(blocks: seq<Block<nat>>) returns (outs: Sets, settled: bool)
    ensures |outs| == |blocks|
    ensures settled ==> SafeLiveness(blocks, outs) && ExactLiveness(blocks, outs)
    ensures settled <==> Settles(blocks)
  {
    var succs := BuildCfg(blocks);
    var def: Sets, use: Sets := [], [];
    for b := 0 to |blocks|
      invariant |def| == |use| == b
      invariant forall c :: 0 <= c < b ==> (def[c], use[c]) == DefUse(blocks[c], |blocks[c]|)
    {
      var d, u := Summarise(blocks[b]);
      def, use := def + [d], use + [u];
    }
    var f := Flow(succs, def, use);
    ValidFlow(blocks, f);
    DescribesOne(blocks, f);
    var liveIn, liveOut;
    liveIn, liveOut, settled := Solve(f);
    outs := liveOut[..];
    if settled {
      SolutionIsSafe(blocks, f, liveIn[..], outs);
      SolutionIsExact(blocks, f, liveIn[..], outs);
    }
  }

  ghost predicate Describes(blocks: seq<Block<nat>>, f: Flow) {
    && |f.succs| == |f.def| == |f.use| == |blocks|
    && (forall b :: 0 <= b < |blocks| ==> f.succs[b] == Successors(blocks[b], b, |blocks|))
    && (forall b :: 0 <= b < |blocks| ==> (f.def[b], f.use[b]) == DefUse(blocks[b], |blocks[b]|))
  }

  lemma ValidFlow(blocks: seq<Block<nat>>, f: Flow)
    requires Describes(blocks, f)
    ensures f.Valid()
  {
    forall b, i | 0 <= b < |f.succs| && 0 <= i < |f.succs[b]|
      ensures f.succs[b][i] < |f.succs|
    {
      SuccessorsInRange(blocks[b], |blocks[b]|, [], false, |blocks|);
    }
  }

  lemma SolutionIsExact(blocks: seq<Block<nat>>, f: Flow, ins: Sets, outs: Sets)
    requires Describes(blocks, f) && f.Valid() && Solution(f, ins, outs) && Exact(f, Sol(ins, outs))
    ensures ExactLiveness(blocks, outs)
  {
    DescribesOne(blocks, f);
    forall b | 0 <= b < |blocks|
      ensures LiveFrom(blocks[b], 0, outs[b]) == ins[b]
    {
      SummaryIsTransfer(blocks[b], |blocks[b]|, outs[b]);
    }
    hide Live, LiveFrom, DefUse;
  }

  lemma SolutionIsSafe(blocks: seq<Block<nat>>, f: Flow, ins: Sets, outs: Sets)
    requires Describes(blocks, f) && f.Valid() && Solution(f, ins, outs)
    ensures SafeLiveness(blocks, outs)
  {
    forall b, s | 0 <= b < |blocks| && s in Successors(blocks[b], b, |blocks|) && s < |blocks|
      ensures LiveFrom(blocks[s], 0, outs[s]) <= outs[b]
    {
      SummaryIsTransfer(blocks[s], |blocks[s]|, outs[s]);
      assert LiveFrom(blocks[s], 0, outs[s]) == ins[s];
      forall v | v in ins[s]
        ensures v in outs[b]
      {
        assert InSome(f, ins, b, v);
      }
    }
  }

  lemma ColoursAreProper(blocks: seq<Block<nat>>, outs: Sets, files: seq<File>, ns: seq<Node>, colour: seq<int>,
      orig: Graph, lim: Limits)
    requires |blocks| == |outs| && |ns| == |files| == |colour|
    requires forall x :: 0 <= x < |ns| ==> ns[x].colour == colour[x] && ns[x].file == files[x]
    requires forall u: nat, v: nat :: (u, v) in orig <==> u < |files| && v < |files| && Edge(blocks, outs, files, u, v)
    requires GoodColours(ns, orig, lim) && forall x :: 0 <= x < |ns| ==> !ns[x].spilled
    ensures ProperColouring(blocks, outs, files, colour)
  {
    forall u: nat, v: nat | u < |files| && v < |files| && Edge(blocks, outs, files, u, v)
      ensures Place(files, colour, u) != Place(files, colour, v)
    {
      assert (u, v) in orig;
      assert Different(ns[u], ns[v]);
      assert InRange(lim, ns[u]);
    }
  }

  /** Simplify, select and hand out, from a merged graph. */
  method ColourMerged(nodes: array<Node>, ifg: array2<bool>, lim: Limits, ghost rep: seq<nat>, ghost rank: seq<nat>,
      ghost top: nat, ghost orig: Graph, ghost files: seq<File>)
    requires ifg.Length0 == ifg.Length1 == nodes.Length <= MAX_NODES
    requires Merging(nodes[..], rep, rank, top, orig, Edges(ifg), files)
    modifies nodes
    ensures GoodColours(nodes[..], orig, lim)
    ensures forall x :: 0 <= x < nodes.Length == |files| ==> nodes[x].file == files[x]
    ensures Reducible(Edges(ifg), InGraph(old(nodes[..])), FileBounds(files, lim)) ==>
              forall x :: 0 <= x < nodes.Length ==> !nodes[x].spilled
    ensures nodes.Length == |rep|
    ensures forall x :: 0 <= x < nodes.Length && nodes[x].spilled ==> OutOfColours(nodes[..], rep, orig, lim, x)
    ensures forall x :: 0 <= x < nodes.Length ==> rep[x] < nodes.Length && nodes[x].colour == nodes[rep[x]].colour
  {
    hide Merging, Edges, Forest, Simplifying, Selecting, GoodColours, DegreesExact, Covered, Reducible, Grounded,
         OutOfColours, AllLow, InGraph, Uniform, Symmetric;
    ghost var before, g := nodes[..], Edges(ifg);
    MergingGraph(before, rep, rank, top, orig, g, files);
    RecomputeDegrees(nodes, ifg, rep, rank, top);
    ghost var start := nodes[..];
    ReadyToSimplify(before, rep, rank, top, orig, g, files, start, lim);
    SameProblem(before, start, files, lim);
    var stack;
    ghost var low;
    stack, low := Simplify(nodes, ifg, lim);
    ghost var simplified := nodes[..];
    ReadyToSelect(start, simplified, rep, rank, top, orig, g, files, before, lim, stack, low);
    SimplifiedStack(start, simplified, g, lim, stack, low);
    Select(nodes, ifg, lim, stack, low, start, rep, rank, top);
    ghost var selected := nodes[..];
    SelectingParts(start, selected, rep, rank, top, g, lim, stack, low, 0);
    HandOut(nodes, rep, rank, top);
    SelectedIsGood(start, selected, nodes[..], rep, rank, top, orig, g, lim, stack, low);
    if AllLow(low) {
      AllLowColoured(start, selected, nodes[..], rep, rank, top, g, lim, stack, low);
    }
    forall x: nat | x < nodes.Length && nodes[x].spilled
      ensures OutOfColours(nodes[..], rep, orig, lim, x)
    {
      SpilledIsOut(start, selected, nodes[..], rep, rank, top, orig, g, lim, stack, low, x);
    }
    HandedByClass(selected, nodes[..], rep);
  }

  lemma HandedByClass(ns: seq<Node>, ns': seq<Node>, rep: seq<nat>)
    requires Handed(ns, ns', rep, |ns|) && Selection.Roots(rep, |ns|)
    ensures forall x :: 0 <= x < |ns| ==> rep[x] < |ns| && ns'[x].colour == ns'[rep[x]].colour
  {
  }

  lemma SameProblem(ns: seq<Node>, ns': seq<Node>, files: seq<File>, lim: Limits)
    requires SameButLinks(ns, ns') && |ns| == |files| && forall x :: 0 <= x < |ns| ==> ns[x].file == files[x]
    ensures InGraph(ns') == InGraph(ns) && Bounds(ns', lim) == FileBounds(files, lim)
  {
  }

  lemma MergingGraph(ns: seq<Node>, rep: seq<nat>, rank: seq<nat>, top: nat, orig: Graph, g: Graph, files: seq<File>)
    requires Merging(ns, rep, rank, top, orig, g, files)
    ensures Forest(ns, rep, rank, top) && Uniform(ns, g) && Symmetric(g) && |rep| == |ns| == |files|
    ensures Covered(rep, orig, g) && Grounded(rep, orig, g) && DegreesCover(ns, g)
    ensures forall x :: 0 <= x < |ns| ==> (ns[x].inGraph <==> rep[x] == x) && ns[x].file == files[x]
  {
  }

  /** The registers of s that interfere with x. */
  ghost function Interfering(blocks: seq<Block<nat>>, outs: Sets, files: seq<File>, s: set<nat>, x: nat): set<nat>
    requires |blocks| == |outs|
  {
    set y | y in s && Edge(blocks, outs, files, x, y)
  }

  ghost predicate AreRegisters(s: set<nat>, files: seq<File>) {
    forall x :: x in s ==> x < |files|
  }

  /** x interferes with fewer registers of s than its file has colours. */
  ghost predicate Fits(blocks: seq<Block<nat>>, outs: Sets, files: seq<File>, lim: Limits, s: set<nat>, x: nat)
    requires |blocks| == |outs|
  {
    x < |files| && |Interfering(blocks, outs, files, s, x)| < lim.K(files[x])
  }

  /** Every set of registers has one that fits. */
  ghost predicate Sparse(blocks: seq<Block<nat>>, outs: Sets, files: seq<File>, lim: Limits)
    requires |blocks| == |outs|
  {
    forall s: set<nat> :: AreRegisters(s, files) && s != {} ==>
        exists x :: x in s && Fits(blocks, outs, files, lim, s, x)
  }

  /** In particular when every register interferes with fewer registers than its file has
      colours. */
  lemma FewNeighboursIsSparse(blocks: seq<Block<nat>>, outs: Sets, files: seq<File>, lim: Limits, all: set<nat>)
    requires |blocks| == |outs| && forall x: nat :: x < |files| ==> x in all && Fits(blocks, outs, files, lim, all, x)
    ensures Sparse(blocks, outs, files, lim)
  {
    forall s: set<nat> | AreRegisters(s, files) && s != {}
      ensures exists x :: x in s && Fits(blocks, outs, files, lim, s, x)
    {
      var x := FiniteSets.Pick(s);
      assert Fits(blocks, outs, files, lim, all, x);
      FiniteSets.SubsetSize(Interfering(blocks, outs, files, s, x), Interfering(blocks, outs, files, all, x));
    }
  }

  lemma SparseIsReducible(blocks: seq<Block<nat>>, outs: Sets, files: seq<File>, lim: Limits, g: Graph, vs: set<nat>)
    requires |blocks| == |outs| && AreRegisters(vs, files) && Sparse(blocks, outs, files, lim)
    requires forall u: nat, v: nat :: (u, v) in g <==> u < |files| && v < |files| && Edge(blocks, outs, files, u, v)
    ensures Reducible(g, vs, FileBounds(files, lim))
  {
    hide Edge;
    forall s: set<nat> | s <= vs && s != {}
      ensures HasLow(g, s, FileBounds(files, lim))
    {
      assert AreRegisters(s, files);
      var x :| x in s && Fits(blocks, outs, files, lim, s, x);
      FiniteSets.SubsetSize(Neighbours(g, s, x), Interfering(blocks, outs, files, s, x));
    }
  }

  /** v's colours are all taken by registers that interfere with v or a register merged with it. */
  ghost predicate Crowded(blocks: seq<Block<nat>>, outs: Sets, files: seq<File>, lim: Limits, rep: seq<nat>,
      colour: seq<int>, v: nat)
    requires |blocks| == |outs| && v < |files| == |rep| == |colour|
  {
    forall r :: lim.Low(files[v]) <= r < lim.High(files[v]) ==> ColourNear(blocks, outs, files, rep, colour, v, r)
  }

  ghost predicate ColourNear(blocks: seq<Block<nat>>, outs: Sets, files: seq<File>, rep: seq<nat>, colour: seq<int>,
      v: nat, r: int)
    requires |blocks| == |outs| && v < |files| == |rep| == |colour|
  {
    exists x: nat, y: nat ::
      x < |files| && y < |files| && rep[x] == rep[v] && Edge(blocks, outs, files, x, y) && colour[y] == r
  }

  lemma OutIsCrowded(blocks: seq<Block<nat>>, outs: Sets, files: seq<File>, lim: Limits, rep: seq<nat>,
      colour: seq<int>, ns: seq<Node>, orig: Graph, v: nat)
    requires |blocks| == |outs| && v < |files| == |rep| == |colour| == |ns| && OutOfColours(ns, rep, orig, lim, v)
    requires forall x :: 0 <= x < |ns| ==> ns[x].colour == colour[x] && ns[x].file == files[x]
    requires forall u: nat, v: nat :: (u, v) in orig <==> u < |files| && v < |files| && Edge(blocks, outs, files, u, v)
    ensures Crowded(blocks, outs, files, lim, rep, colour, v)
  {
    hide Edge;
    forall r | lim.Low(files[v]) <= r < lim.High(files[v])
      ensures ColourNear(blocks, outs, files, rep, colour, v, r)
    {
      assert TakenNear(ns, rep, orig, v, r);
      var x: nat, y: nat :| x < |ns| && y < |ns| && rep[x] == rep[v] && (x, y) in orig && ns[y].colour == r;
      assert Edge(blocks, outs, files, x, y);
    }
  }

  /** One round of the colouring allocator.  Registers joined by an edge never share a place; with
      nothing spilled the result is a proper colouring, and on settled liveness that is what the
      simulation theorem asks for.  Nothing is spilled when every set of registers has one that
      fits, however many copies are merged, and a register is spilled only when every colour of
      its file is taken around it; `rep` names the class each register was merged into, and `ms` is
      the merging, copy by copy. */
  method Allocate(blocks: seq<Block<nat>>, files: seq<File>, costs: seq<nat>, lim: Limits)
    returns (outs: Sets, colour: seq<int>, spilled: bool, settled: bool, ghost rep: seq<nat>, ghost ms: seq<Merge>)
    requires AllBounded(blocks, |files|) && |costs| == |files| <= MAX_NODES
    ensures |outs| == |blocks| && |colour| == |files|
    ensures forall v :: 0 <= v < |files| && colour[v] != NO_COLOUR ==>
              lim.Low(files[v]) <= colour[v] < lim.High(files[v])
    ensures spilled <==> exists v :: 0 <= v < |files| && colour[v] == NO_COLOUR
    ensures !spilled ==> ProperColouring(blocks, outs, files, colour)
    ensures Sparse(blocks, outs, files, lim) ==> !spilled
    ensures |rep| == |files| && forall v :: 0 <= v < |files| ==> rep[v] < |files| && colour[v] == colour[rep[v]]
    ensures CopyClasses.ByCopies(blocks, files, rep)
    ensures MergeRun(CopiesTo(blocks, |blocks|, 0), ms, lim) && ms[0].rep == Identity(|files|)
    ensures ms[|ms| - 1].rep == rep
    ensures forall u: nat, v: nat :: (u, v) in ms[0].g <==>
              u < |files| && v < |files| && Edge(blocks, outs, files, u, v)
    ensures forall v :: 0 <= v < |files| && colour[v] == NO_COLOUR ==> Crowded(blocks, outs, files, lim, rep, colour, v)
    ensures settled ==> SafeLiveness(blocks, outs) && ExactLiveness(blocks, outs)
    ensures settled <==> Settles(blocks)
  {
    hide Merging, Edges, SafeLiveness, ExactLiveness, Settles, ProperMatrix, Edge, GoodColours, ProperColouring, Sparse,
         Reducible, Colourable, Counted, OutOfColours, Crowded, InGraph, CopyClasses.ByCopies, MergeRun;
    outs, settled := LiveOuts(blocks);
    var nodes := FreshNodes(files, costs);
    var ifg := BuildGraph(blocks, outs, files, nodes);
    ghost var orig := Edges(ifg);
    MatrixEdges(blocks, outs, files, ifg);
    EdgesProper(blocks, outs, files, orig);
    StartMerging(nodes[..], orig, files);
    ghost var vs := InGraph(nodes[..]);
    InGraphBelow(nodes[..], files);
    if Sparse(blocks, outs, files, lim) {
      SparseIsReducible(blocks, outs, files, lim, orig, vs);
    }
    ghost var rank, top;
    AllAlone(blocks, files);
    rep, rank, top, ms := MergeCopies(blocks, nodes, ifg, lim, Identity(|files|), Zeros(|files|), orig, files);
    ColourMerged(nodes, ifg, lim, rep, rank, top, orig, files);
    GoodRanges(nodes[..], orig, lim);
    colour := ReadColours(nodes);
    forall v | 0 <= v < |files| && colour[v] == NO_COLOUR
      ensures Crowded(blocks, outs, files, lim, rep, colour, v)
    {
      OutIsCrowded(blocks, outs, files, lim, rep, colour, nodes[..], orig, v);
    }
    spilled := exists v :: 0 <= v < |colour| && colour[v] == NO_COLOUR;
    if !spilled {
      ColoursAreProper(blocks, outs, files, nodes[..], colour, orig, lim);
    }
  }

  lemma AllAlone(blocks: seq<Block<nat>>, files: seq<File>)
    ensures CopyClasses.ByCopies(blocks, files, Identity(|files|))
  {
    hide CopyClasses.CopyLinked;
    forall x: nat | x < |files|
      ensures CopyClasses.CopyLinked(blocks, files, x, x)
    {
      CopyClasses.LinkSelf(blocks, files, x);
    }
  }

  lemma InGraphBelow(ns: seq<Node>, files: seq<File>)
    requires |ns| == |files|
    ensures AreRegisters(InGraph(ns), files)
  {
  }

  lemma MatrixEdges(blocks: seq<Block<nat>>, outs: Sets, files: seq<File>, ifg: array2<bool>)
    requires |blocks| == |outs| && ifg.Length0 == ifg.Length1 == |files|
    requires forall u, v :: 0 <= u < |files| && 0 <= v < |files| ==> (ifg[u, v] <==> Edge(blocks, outs, files, u, v))
    ensures forall u: nat, v: nat :: (u, v) in Edges(ifg) <==>
              u < |files| && v < |files| && Edge(blocks, outs, files, u, v)
  {
    hide Edge;
  }

  lemma GoodRanges(ns: seq<Node>, orig: Graph, lim: Limits)
    requires GoodColours(ns, orig, lim)
    ensures forall x :: 0 <= x < |ns| ==> InRange(lim, ns[x])
  {
  }

  method FreshNodes(files: seq<File>, costs: seq<nat>) returns (nodes: array<Node>)
    requires |costs| == |files|
    ensures fresh(nodes) && nodes.Length == |files|
    ensures forall x :: 0 <= x < |files| ==> Fresh(nodes[x], files[x], x) && nodes[x].degree == 0
  {
    nodes := new Node[|files|](i requires 0 <= i < |files| == |costs| =>
      Node(files[i], 0, costs[i], NO_COLOUR, i, false, true));
  }

  method ReadColours(nodes: array<Node>) returns (colour: seq<int>)
    ensures |colour| == nodes.Length && forall x :: 0 <= x < nodes.Length ==> colour[x] == nodes[x].colour
  {
    colour := [];
    for n := 0 to nodes.Length
      invariant |colour| == n && forall x :: 0 <= x < n ==> colour[x] == nodes[x].colour
    {
      colour := colour + [nodes[n].colour];
    }
  }

  /** A run starts related when the entry block reads no register it does not define. */
  lemma StartRelated<V(!new), W(!new)>(blocks: seq<Block<nat>>, outs: Sets, files: seq<File>, colour: seq<int>,
                                       regs: nat -> V, phys: Loc -> V, w: W)
    requires 0 < |blocks| == |outs| && |files| == |colour|
    requires LiveFrom(blocks[0], 0, outs[0]) == {}
    ensures Related(blocks, outs, files, colour, At(0, 0, regs, w), At(0, 0, phys, w))
  {
  }

  /** No path from the entry reads a register before writing it. */
  ghost predicate DefinesFirst(blocks: seq<Block<nat>>) {
    0 < |blocks| && FlowOf(blocks).Valid() && forall v :: !Live(FlowOf(blocks), 0, v)
  }

  /** The allocator preserves meaning.  A function that defines what it reads, allocated in one
      round with settled liveness and nothing spilled, runs in step with its rewritten form from
      any contents of the two register files: the same point, the same world and the same values
      after every number of steps. */
  lemma AllocationPreservesMeaning<V(!new), W(!new)>(m: Machine<V, W>, blocks: seq<Block<nat>>, outs: Sets,
      files: seq<File>, colour: seq<int>, regs: nat -> V, phys: Loc -> V, w: W, n: nat)
    requires WellShaped(blocks, |files|) && DefinesFirst(blocks) && |colour| == |files|
    requires SafeLiveness(blocks, outs) && ExactLiveness(blocks, outs) && ProperColouring(blocks, outs, files, colour)
    ensures OneDef(Rewrite(files, colour, blocks))
    ensures Related(blocks, outs, files, colour, Run(m, blocks, At(0, 0, regs, w), n),
                    Run(m, Rewrite(files, colour, blocks), At(0, 0, phys, w), n))
  {
    hide WellShaped, SafeLiveness, ProperColouring, Live, LiveFrom, Related;
    StartRelated(blocks, outs, files, colour, regs, phys, w);
    RunRelated(m, blocks, outs, files, colour, At(0, 0, regs, w), At(0, 0, phys, w), n);
  }

  /** A round that spills nothing rewrites the function.  That happens whenever every set of
      registers has one that fits; in a function whose liveness settles, `outs` and `colour` are
      then what AllocationPreservesMeaning asks for. */
  method AllocateAndRewrite(blocks: seq<Block<nat>>, files: seq<File>, costs: seq<nat>, lim: Limits)
    returns (done: bool, outs: Sets, colour: seq<int>, code: seq<Block<Loc>>)
    requires AllBounded(blocks, |files|) && |costs| == |files| <= MAX_NODES
    ensures |outs| == |blocks| && |colour| == |files|
    ensures done ==> ProperColouring(blocks, outs, files, colour) && code == Rewrite(files, colour, blocks)
    ensures Settles(blocks) ==> SafeLiveness(blocks, outs) && ExactLiveness(blocks, outs)
    ensures Sparse(blocks, outs, files, lim) ==> done
  {
    hide SafeLiveness, ExactLiveness, Settles, ProperColouring, Sparse, Crowded;
    var spilled, settled;
    ghost var rep, ms;
    outs, colour, spilled, settled, rep, ms := Allocate(blocks, files, costs, lim);
    done := !spilled;
    code := if done then Rewrite(files, colour, blocks) else [];
  }
}
