/** What the tree-building operations of src/langkit/parse.h do to the
    tree as a whole: which nodes they add, that closing and extending add
    none, and how `done()` reports the nodes left open. */
module TreeFacts {
  import opened Ast
  import opened TreeBuilder

  function Ind(b: bool): nat {
    if b then 1 else 0
  }

  /** Replacing the open node changes the count of the whole tree by exactly
      what it changes the count of that node. */
  lemma {:induction false} PlugCount(k: Token, n: Node, n': Node, path: seq<Frame>)
    ensures Count(k, Plug(n', path)) + Count(k, n) == Count(k, Plug(n, path)) + Count(k, n')
    decreases |path|
  {
    if |path| > 0 {
      var f := path[|path| - 1];
      var p := Node(f.kind, f.loc, f.left + [n]);
      var p' := Node(f.kind, f.loc, f.left + [n']);
      assert (f.left + [n])[..|f.left + [n]| - 1] == f.left;
      assert (f.left + [n'])[..|f.left + [n']| - 1] == f.left;
      PlugCount(k, p, p', path[..|path| - 1]);
    }
  }

  /** `extend()` adds and removes no node. */
  lemma ExtendCount(k: Token, m: Make)
    ensures Count(k, Tree(ExtendNode(m))) == Count(k, Tree(m))
  {
    PlugCount(k, m.node, ExtendNode(m).node, m.path);
  }

  /** `add(t)` adds one `t` leaf, and one `Group` when it opens an implicit
      one; nothing else in the tree changes count. */
  lemma AddCount(k: Token, m: Make, t: Token)
    ensures Count(k, Tree(Add(m, t))) ==
      Count(k, Tree(m)) + Ind(t == k) + Ind(t != Group && !In(m, Group) && k == Group)
  {
    var a := Add(m, t);
    var leaf := Leaf(t, m.location);
    assert Count(k, leaf) == Ind(t == k);
    if t != Group && !In(m, Group) {
      var n' := Node(m.node.kind, m.node.loc, m.node.children + [a.node]);
      assert Tree(a) == Plug(n', m.path);
      assert [leaf][..0] == [];
      assert Count(k, a.node) == Ind(k == Group) + Ind(t == k);
      assert (m.node.children + [a.node])[..|m.node.children + [a.node]| - 1] == m.node.children;
      PlugCount(k, m.node, n', m.path);
    } else {
      assert (m.node.children + [leaf])[..|m.node.children + [leaf]| - 1] == m.node.children;
      PlugCount(k, m.node, a.node, m.path);
    }
  }

  lemma TryPopCount(k: Token, m: Make, t: Token)
    ensures TryPop(m, t).Ok? ==> Count(k, Tree(TryPop(m, t).value.0)) == Count(k, Tree(m))
  {
    if In(m, t) {
      ExtendCount(k, m);
    }
  }

  lemma {:induction false} TryPopEachCount(k: Token, m: Make, ends: seq<Token>)
    ensures TryPopEach(m, ends).Ok? ==> Count(k, Tree(TryPopEach(m, ends).value)) == Count(k, Tree(m))
    decreases |ends|
  {
    if |ends| > 0 {
      TryPopCount(k, m, ends[0]);
      if TryPop(m, ends[0]).Ok? {
        TryPopEachCount(k, TryPop(m, ends[0]).value.0, ends[1..]);
      }
    }
  }

  /** `term(ends)` only closes nodes: the tree keeps every node it had. */
  lemma TermCount(k: Token, m: Make, ends: seq<Token>)
    ensures Term(m, ends).Ok? ==> Count(k, Tree(Term(m, ends).value)) == Count(k, Tree(m))
  {
    TryPopCount(k, m, Group);
    if TryPop(m, Group).Ok? {
      TryPopEachCount(k, TryPop(m, Group).value.0, ends);
    }
  }

  /** The repaired `done()` closes every open node: it adds at least one
      `Unclosed` marker exactly when a node other than a trailing `Group` was
      still open and at most one per open ancestor, adds nothing but
      `Unclosed` markers and the `Group`s that hold them, and returns the
      whole tree. */
  lemma {:induction false} CloseAllGuardedCount(k: Token, m: Make)
    requires Rooted(m)
    ensures CloseAllGuarded(m).Ok?
    ensures k != Unclosed && k != Group ==> Count(k, CloseAllGuarded(m).value) == Count(k, Tree(m))
    ensures k == Unclosed ==> Count(k, CloseAllGuarded(m).value) >= Count(k, Tree(m))
    ensures k == Unclosed && |m.path| > 0 ==> Count(k, CloseAllGuarded(m).value) > Count(k, Tree(m))
    ensures k == Unclosed ==> Count(k, CloseAllGuarded(m).value) <= Count(k, Tree(m)) + |m.path|
    decreases |m.path|
  {
    if |m.path| > 0 {
      var a := Add(m, Unclosed);
      AddCount(k, m, Unclosed);
      assert In(a, Group) && |a.path| <= |m.path| + 1;
      TermCount(k, a, []);
      var b := Term(a, []).value;
      assert |b.path| <= |m.path|;
      var c := if |b.path| > 0 then Up(b).value else b;
      TermCount(k, c, []);
      var d := Term(c, []).value;
      assert |d.path| < |m.path|;
      CloseAllGuardedCount(k, d);
    }
  }

  lemma DoneGuardedCount(k: Token, m: Make)
    requires Rooted(m)
    ensures DoneGuarded(m).Ok?
    ensures k != Unclosed && k != Group ==> Count(k, DoneGuarded(m).value) == Count(k, Tree(m))
    ensures k == Unclosed ==>
      (Count(k, DoneGuarded(m).value) > Count(k, Tree(m)) <==> |Term(m, []).value.path| > 0)
    ensures k == Unclosed ==> Count(k, DoneGuarded(m).value) <= Count(k, Tree(m)) + |m.path|
  {
    TermCount(k, m, []);
    var m1 := Term(m, []).value;
    CloseAllGuardedCount(k, m1);
  }

  /** Open nodes along `path` that are not `Group`s. */
  function NonGroupFrames(path: seq<Frame>): (r: nat)
    ensures r <= |path|
    decreases |path|
  {
    if |path| == 0 then 0
    else NonGroupFrames(path[..|path| - 1]) + Ind(path[|path| - 1].kind != Group)
  }

  /** Open nodes, the cursor and the root included, that are not `Group`s:
      the nodes `done()` has to mark. */
  function OpenNonGroups(m: Make): nat {
    NonGroupFrames(m.path) + Ind(!In(m, Group))
  }

  /** No `Group` is open directly inside another `Group`: `add` opens a
      `Group` only outside one, so only an explicit `push(Group)` inside a
      `Group` breaks this. */
  predicate GroupsApart(m: Make) {
    && (forall j | 0 < j < |m.path| :: m.path[j - 1].kind == Group ==> m.path[j].kind != Group)
    && (|m.path| > 0 && m.path[|m.path| - 1].kind == Group ==> !In(m, Group))
  }

  /** On a cursor that is no `Group` and has no `Group` directly inside a
      `Group` above it, the source's closing loop and the repaired one agree,
      and they add exactly one `Unclosed` marker per open node below the
      root. */
  lemma {:induction false} CloseAllGuardedMarkers(m: Make)
    requires Rooted(m) && GroupsApart(m) && !In(m, Group)
    ensures CloseAll(m) == CloseAllGuarded(m)
    ensures CloseAllGuarded(m).Ok?
    ensures Count(Unclosed, CloseAllGuarded(m).value) + 1 == Count(Unclosed, Tree(m)) + OpenNonGroups(m)
    decreases |m.path|
  {
    if |m.path| > 0 {
      var b := MarkAndClose(m);
      var d := CloseParent(m, b);
      CloseRound(m, b, d);
      CloseAllGuardedMarkers(d);
    }
  }

  /** One round of the closing loop, first half: add the `Unclosed` marker in
      an implicit `Group` and close that `Group` again. */
  lemma MarkAndClose(m: Make) returns (b: Make)
    requires Rooted(m) && !In(m, Group) && |m.path| > 0
    ensures Term(Add(m, Unclosed), []) == Ok(b)
    ensures b.path == m.path && b.node.kind == m.node.kind
    ensures Count(Unclosed, Tree(b)) == Count(Unclosed, Tree(m)) + 1
  {
    var a := Add(m, Unclosed);
    AddCount(Unclosed, m, Unclosed);
    assert a.path == m.path + [Frame(m.node.kind, m.node.loc, m.node.children)] && In(a, Group);
    b := Up(ExtendNode(a)).value;
    assert Term(a, []) == Ok(b);
    TermCount(Unclosed, a, []);
  }

  /** Second half: step to the parent and close it too when it is a `Group`;
      the cursor lands on the next open node that is not a `Group`. */
  lemma CloseParent(m: Make, b: Make) returns (d: Make)
    requires Rooted(m) && GroupsApart(m) && !In(m, Group) && |m.path| > 0
    requires b.path == m.path && b.node.kind == m.node.kind
    requires Count(Unclosed, Tree(b)) == Count(Unclosed, Tree(m)) + 1
    ensures Term(Up(b).value, []) == Ok(d)
    ensures Rooted(d) && GroupsApart(d) && !In(d, Group) && |d.path| < |m.path|
    ensures OpenNonGroups(d) + 1 == OpenNonGroups(m)
    ensures Count(Unclosed, Tree(d)) == Count(Unclosed, Tree(m)) + 1
  {
    var n := |m.path|;
    var c := Up(b).value;
    assert c.path == m.path[..n - 1] && c.node.kind == m.path[n - 1].kind;
    assert NonGroupFrames(m.path) == NonGroupFrames(c.path) + Ind(m.path[n - 1].kind != Group);
    TermCount(Unclosed, c, []);
    if In(c, Group) {
      d := CloseParentGroup(m, c);
    } else {
      d := c;
      assert Term(c, []) == Ok(c);
    }
  }

  /** The parent is a `Group`: it is closed as well, and the node above it is
      no `Group`, since no `Group` sits directly inside another. */
  lemma CloseParentGroup(m: Make, c: Make) returns (d: Make)
    requires Rooted(m) && GroupsApart(m) && |m.path| > 0
    requires c.path == m.path[..|m.path| - 1] && c.node.kind == m.path[|m.path| - 1].kind
    requires In(c, Group)
    ensures Term(c, []) == Ok(d)
    ensures Rooted(d) && GroupsApart(d) && !In(d, Group)
    ensures d.path == m.path[..|m.path| - 2]
    ensures NonGroupFrames(c.path) == NonGroupFrames(d.path) + 1
  {
    var n := |m.path|;
    assert n > 1;
    d := Up(ExtendNode(c)).value;
    assert Term(c, []) == Ok(d);
    assert d.path == m.path[..n - 2] && d.node.kind == m.path[n - 2].kind;
    assert c.path[..n - 2] == d.path;
    assert m.path[n - 2].kind != Group;
  }

  /** A round of the loop ends on the same cursor in both versions. */
  lemma CloseRound(m: Make, b: Make, d: Make)
    requires |m.path| > 0 && |b.path| > 0
    requires Term(Add(m, Unclosed), []) == Ok(b)
    requires Term(Up(b).value, []) == Ok(d)
    ensures CloseAll(m) == CloseAll(d) && CloseAllGuarded(m) == CloseAllGuarded(d)
  {
  }

  /** `done()` on a tree with no `Group` directly inside a `Group` adds
      exactly one `Unclosed` marker per open node below the root that is not
      a `Group`, and the source's version agrees with the repaired one. */
  lemma DoneGuardedMarkers(m: Make)
    requires Rooted(m) && GroupsApart(m)
    ensures Done(m) == DoneGuarded(m)
    ensures DoneGuarded(m).Ok?
    ensures Count(Unclosed, DoneGuarded(m).value) + 1 == Count(Unclosed, Tree(m)) + OpenNonGroups(m)
  {
    var n := |m.path|;
    TermCount(Unclosed, m, []);
    var m1 := Term(m, []).value;
    if In(m, Group) {
      m1 := Up(ExtendNode(m)).value;
      assert Term(m, []) == Ok(m1);
      assert m1.path == m.path[..n - 1] && m1.node.kind == m.path[n - 1].kind;
      assert NonGroupFrames(m.path) == NonGroupFrames(m1.path) + Ind(m.path[n - 1].kind != Group);
    } else {
      assert Term(m, []) == Ok(m);
    }
    CloseAllGuardedMarkers(m1);
  }

  /** A cursor two `Group`s deep, as `push(Group)` inside a `Group` leaves
      it. The source's `done()` pops the inner `Group`, marks the outer one
      `Unclosed` and pops it, which puts the cursor on the root, and then
      steps to the root's parent, which does not exist. */
  lemma DoneFaultsOnNestedGroup(m0: Make)
    requires m0.path == [] && m0.node.kind == File
    ensures var m := Push(Push(m0, Group), Group);
      Rooted(m) && Done(m) == Err(Fault("null parent")) && DoneGuarded(m).Ok?
  {
    var m := Push(Push(m0, Group), Group);
    NestedGroupShape(m0);
    assert |m.path| == 2 && In(m, Group) && m.path[0].kind == File;
    var t := Term(m, []);
    assert t.Ok? && |t.value.path| == 1 && In(t.value, Group);
    CloseAllFaults(t.value);
  }

  lemma NestedGroupShape(m0: Make)
    requires m0.path == [] && m0.node.kind == File
    ensures var m := Push(Push(m0, Group), Group);
      && |m.path| == 2 && In(m, Group)
      && m.path[0].kind == File && m.path[1].kind == Group
  {
    var m1 := Push(m0, Group);
    assert |m1.path| == 1 && In(m1, Group) && m1.path[0].kind == File;
    var m := Push(m1, Group);
    assert m.path[..1] == m1.path;
  }

  lemma CloseAllFaults(t: Make)
    requires |t.path| == 1 && In(t, Group)
    ensures CloseAll(t) == Err(Fault("null parent"))
  {
    var a := Add(t, Unclosed);
    assert |a.path| == 1 && In(a, Group);
    var b := Term(a, []);
    assert b.Ok? && |b.value.path| == 0;
  }
}
