/** The classes that coalescing may form: registers linked by copies of the function, of one file. */
module CopyClasses {
  import opened Registers
  import opened MachineIR
  import opened Coalescing

  /** Some copy of the function moves one of x and y to the other. */
  ghost predicate CopyPair(blocks: seq<Block<nat>>, x: nat, y: nat) {
    exists b, i :: 0 <= b < |blocks| && 0 <= i < |blocks[b]| && Copies(blocks[b][i], x, y)
  }

  predicate Copies(i: Inst<nat>, x: nat, y: nat) {
    && i.isCopy && |i.defs| >= 1 && |i.uses| >= 1
    && ((i.defs[0] == x && i.uses[0] == y) || (i.defs[0] == y && i.uses[0] == x))
  }

  ghost predicate Linked(blocks: seq<Block<nat>>, files: seq<File>, x: nat, y: nat) {
    x < |files| && y < |files| && files[x] == files[y] && CopyPair(blocks, x, y)
  }

  ghost predicate Path(blocks: seq<Block<nat>>, files: seq<File>, p: seq<nat>) {
    |p| > 0 && forall i :: 0 <= i < |p| - 1 ==> Linked(blocks, files, p[i], p[i + 1])
  }

  /** A chain of copies within one file leads from x to y. */
  ghost predicate CopyLinked(blocks: seq<Block<nat>>, files: seq<File>, x: nat, y: nat) {
    exists p :: Path(blocks, files, p) && p[0] == x && p[|p| - 1] == y
  }

  /** Every register is linked to its representative. */
  ghost predicate ByCopies(blocks: seq<Block<nat>>, files: seq<File>, rep: seq<nat>) {
    |rep| == |files| && forall x :: 0 <= x < |files| ==> rep[x] < |files| && CopyLinked(blocks, files, x, rep[x])
  }

  lemma LinkSelf(blocks: seq<Block<nat>>, files: seq<File>, x: nat)
    ensures CopyLinked(blocks, files, x, x)
  {
    assert Path(blocks, files, [x]);
  }

  lemma LinkOne(blocks: seq<Block<nat>>, files: seq<File>, x: nat, y: nat)
    requires Linked(blocks, files, x, y)
    ensures CopyLinked(blocks, files, x, y)
  {
    hide Linked;
    assert Path(blocks, files, [x, y]);
  }

  lemma LinkTwice(blocks: seq<Block<nat>>, files: seq<File>, x: nat, y: nat, z: nat)
    requires CopyLinked(blocks, files, x, y) && CopyLinked(blocks, files, y, z)
    ensures CopyLinked(blocks, files, x, z)
  {
    hide Linked;
    var p :| Path(blocks, files, p) && p[0] == x && p[|p| - 1] == y;
    var q :| Path(blocks, files, q) && q[0] == y && q[|q| - 1] == z;
    var r := p + q[1..];
    forall i | 0 <= i < |r| - 1
      ensures Linked(blocks, files, r[i], r[i + 1])
    {
      if i < |p| - 1 {
        assert r[i] == p[i] && r[i + 1] == p[i + 1];
      } else {
        assert r[i] == q[i - |p| + 1] && r[i + 1] == q[i - |p| + 2];
      }
    }
    assert Path(blocks, files, r) && r[|r| - 1] == z;
  }

  lemma LinkedBack(blocks: seq<Block<nat>>, files: seq<File>, x: nat, y: nat)
    requires Linked(blocks, files, x, y)
    ensures Linked(blocks, files, y, x)
  {
    var b, i :| 0 <= b < |blocks| && 0 <= i < |blocks[b]| && Copies(blocks[b][i], x, y);
    assert Copies(blocks[b][i], y, x);
  }

  lemma LinkBack(blocks: seq<Block<nat>>, files: seq<File>, x: nat, y: nat)
    requires CopyLinked(blocks, files, x, y)
    ensures CopyLinked(blocks, files, y, x)
  {
    hide Linked;
    var p :| Path(blocks, files, p) && p[0] == x && p[|p| - 1] == y;
    var r := seq(|p|, i requires 0 <= i < |p| => p[|p| - 1 - i]);
    forall i | 0 <= i < |r| - 1
      ensures Linked(blocks, files, r[i], r[i + 1])
    {
      LinkedBack(blocks, files, p[|p| - 2 - i], p[|p| - 1 - i]);
    }
    assert Path(blocks, files, r);
  }

  /** Merging the classes of a copy's two registers. */
  lemma MergedByCopies(blocks: seq<Block<nat>>, files: seq<File>, rep: seq<nat>, dst: nat, src: nat)
    requires ByCopies(blocks, files, rep) && dst < |files| && src < |files| && Linked(blocks, files, dst, src)
    ensures ByCopies(blocks, files, Merged(rep, rep[dst], rep[src]))
  {
    hide Linked, CopyLinked;
    LinkOne(blocks, files, dst, src);
    LinkBack(blocks, files, dst, src);
    LinkBack(blocks, files, src, rep[src]);
    LinkTwice(blocks, files, rep[src], src, dst);
    LinkTwice(blocks, files, rep[src], dst, rep[dst]);
    forall x: nat | x < |files| && rep[x] == rep[src]
      ensures CopyLinked(blocks, files, x, rep[dst])
    {
      LinkTwice(blocks, files, x, rep[src], rep[dst]);
    }
  }
}
