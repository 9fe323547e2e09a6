/** The node builders effects use to assemble a replacement
    (the `operator<<` overloads, `RangeContents` and `RangeOr` of
    src/langkit/rewrite.h). A captured range is the run of nodes it covers. */
module Builders {
  import opened Ast

  /** `NodeDef::create(type)` as used by the builders: no location. */
  function Create(kind: Token): Node {
    Leaf(kind, NoLocation)
  }

  /** `node1 << node2`: append one child. */
  function AppendNode(n: Node, child: Node): (r: Node)
    ensures r.kind == n.kind && r.loc == n.loc
    ensures |r.children| == |n.children| + 1
    ensures r.children[..|n.children|] == n.children && r.children[|n.children|] == child
  {
    n.(children := n.children + [child])
  }

  /** `node << range`: append every node of the range, in order. */
  function AppendRange(n: Node, range: seq<Node>): (r: Node)
    ensures r.kind == n.kind && r.loc == n.loc
    ensures |r.children| == |n.children| + |range|
    ensures r.children[..|n.children|] == n.children && r.children[|n.children|..] == range
  {
    n.(children := n.children + range)
  }

  /** The children of every node of a range, concatenated in order. */
  function Flatten(range: seq<Node>): seq<Node> {
    if |range| == 0 then [] else range[0].children + Flatten(range[1..])
  }

  lemma {:induction false} FlattenAppend(range: seq<Node>, x: Node)
    ensures Flatten(range + [x]) == Flatten(range) + x.children
  {
    if |range| == 0 {
      assert [x][1..] == [];
    } else {
      assert (range + [x])[1..] == range[1..] + [x];
      FlattenAppend(range[1..], x);
    }
  }

  /** `node << *range`: the loop that moves the children of each node of the
      range, in order, to the end of `node`. The emptied range nodes are not
      returned; they are the nodes the rewrite erases. */
  method AppendContents(n: Node, range: seq<Node>) returns (r: Node)
    ensures r.kind == n.kind && r.loc == n.loc
    ensures r.children == n.children + Flatten(range)
  {
    r := n;
    var k := 0;
    while k < |range|
      invariant 0 <= k <= |range|
      invariant r.kind == n.kind && r.loc == n.loc
      invariant r.children == n.children + Flatten(range[..k])
    {
      FlattenAppend(range[..k], range[k]);
      assert range[..k + 1] == range[..k] + [range[k]];
      r := r.(children := r.children + range[k].children);
      k := k + 1;
    }
    assert range[..k] == range;
  }

  /** `node << (range | alt)`: the range when it is not empty, else `alt`. */
  function AppendRangeOr(n: Node, range: seq<Node>, alt: Node): (r: Node)
    ensures r.kind == n.kind && r.loc == n.loc
    ensures |r.children| >= |n.children| + 1 && r.children[..|n.children|] == n.children
    ensures |range| > 0 ==> r.children[|n.children|..] == range
    ensures |range| == 0 ==> r.children[|n.children|..] == [alt]
  {
    if |range| > 0 then AppendRange(n, range) else AppendNode(n, alt)
  }

  /** `node << type`: append a fresh leaf of that type. */
  function AppendToken(n: Node, kind: Token): (r: Node)
    ensures r.kind == n.kind && r.loc == n.loc && |r.children| == |n.children| + 1
    ensures r.children[..|n.children|] == n.children
    ensures r.children[|n.children|].kind == kind && r.children[|n.children|].children == []
    ensures r.children[|n.children|].loc == NoLocation
  {
    AppendNode(n, Create(kind))
  }

  /** The `type << x` overloads create a node of that type with no location
      and then append as `node << x` does; `type << *range` is
      `AppendContents(Create(type), range)`. */
  lemma TokenFirstBuilders(t: Token, child: Node, range: seq<Node>, alt: Node, t2: Token)
    ensures AppendNode(Create(t), child) == Node(t, NoLocation, [child])
    ensures AppendRange(Create(t), range) == Node(t, NoLocation, range)
    ensures AppendRangeOr(Create(t), range, alt) == Node(t, NoLocation, if |range| > 0 then range else [alt])
    ensures AppendToken(Create(t), t2) == Node(t, NoLocation, [Leaf(t2, NoLocation)])
  {
  }
}
