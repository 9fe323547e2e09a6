/** The lexer's tree-building cursor (`detail::Make` in src/langkit/parse.h)
    as a zipper.

    In the source the cursor `node` is always the last child of its parent:
    `push` moves to the node it just appended, `pop` and `seq` move to an
    ancestor, and `seq` re-inserts its new node as its parent's last child.
    So the cursor is described by the node itself and, for each open
    ancestor from the root down, the ancestor's type, location and the
    children before the open one. The root `top` is where the path ends.
    Moving to the parent of the root dereferences a null parent pointer in
    the source; the model reports it as a fault. */
module TreeBuilder {
  import opened Ast

  datatype Frame = Frame(kind: Token, loc: Location, left: seq<Node>)

  /** The cursor `node`, its open ancestors, the location of the current
      match, and the pending mode switch. */
  datatype Make = Make(node: Node, path: seq<Frame>, location: Location, mode: Option<string>)

  /** `Make(source)`: the cursor sits on a fresh `File` root. */
  function Start(source: nat): (m: Make)
    ensures m.path == [] && m.node.kind == File && m.node.children == [] && m.mode.None?
  {
    Make(Leaf(File, Location(source, 0, 0)), [], NoLocation, None)
  }

  /** Close the open ancestors around `n`, innermost last in `path`. */
  function Plug(n: Node, path: seq<Frame>): Node
    decreases |path|
  {
    if |path| == 0 then n
    else
      var f := path[|path| - 1];
      Plug(Node(f.kind, f.loc, f.left + [n]), path[..|path| - 1])
  }

  /** The whole tree the cursor is in, seen from its root. */
  function Tree(m: Make): Node {
    Plug(m.node, m.path)
  }

  /** The root of the tree is the `File` node the cursor started on. */
  predicate Rooted(m: Make) {
    if |m.path| == 0 then m.node.kind == File else m.path[0].kind == File
  }

  /** `in(type)`: the cursor node has that type, so the tree holds a node
      of it. */
  function In(m: Make, t: Token): (r: bool)
    ensures r ==> Count(t, Tree(m)) > 0
  {
    PlugContains(t, m.node, m.path);
    m.node.kind == t
  }

  /** `previous(type)`: in a `Group` whose last child has that type; the
      cursor then already holds a node of that type. */
  function Previous(m: Make, t: Token): (r: bool)
    ensures r ==> In(m, Group) && CountAll(t, m.node.children) > 0
    ensures !In(m, Group) || |m.node.children| == 0 ==> !r
  {
    In(m, Group) && |m.node.children| > 0 && m.node.children[|m.node.children| - 1].kind == t
  }

  /** The tree around the cursor contains every node of the cursor's subtree. */
  lemma {:induction false} PlugContains(k: Token, n: Node, path: seq<Frame>)
    ensures Count(k, Plug(n, path)) >= Count(k, n)
    decreases |path|
  {
    if |path| > 0 {
      var f := path[|path| - 1];
      var p := Node(f.kind, f.loc, f.left + [n]);
      assert (f.left + [n])[..|f.left + [n]| - 1] == f.left;
      assert Count(k, p) >= Count(k, n);
      PlugContains(k, p, path[..|path| - 1]);
    }
  }

  /** `node->push_back(NodeDef::create(type, location))`. */
  function AddLeaf(m: Make, t: Token): Make {
    m.(node := m.node.(children := m.node.children + [Leaf(t, m.location)]))
  }

  /** `node = node->back()`. */
  function Descend(m: Make): (r: Make)
    requires |m.node.children| > 0
    ensures |r.path| == |m.path| + 1 && r.path[..|m.path|] == m.path
    ensures r.node == m.node.children[|m.node.children| - 1]
    ensures Tree(r) == Tree(m)
  {
    var n := |m.node.children|;
    assert m.node.children[..n - 1] + [m.node.children[n - 1]] == m.node.children;
    assert (m.path + [Frame(m.node.kind, m.node.loc, m.node.children[..n - 1])])[..|m.path|] == m.path;
    m.(node := m.node.children[n - 1],
       path := m.path + [Frame(m.node.kind, m.node.loc, m.node.children[..n - 1])])
  }

  /** `node = node->parent()`, a fault at the root. */
  function Up(m: Make): (r: Result<Make>)
    ensures r.Ok? <==> |m.path| > 0
    ensures r.Ok? ==> r.value.path == m.path[..|m.path| - 1] && Tree(r.value) == Tree(m)
    ensures r.Ok? ==> r.value.node.kind == m.path[|m.path| - 1].kind
    ensures r.Ok? ==> r.value.location == m.location && r.value.mode == m.mode
    ensures r.Ok? && Rooted(m) ==> Rooted(r.value)
  {
    if |m.path| == 0 then Err(Fault("null parent"))
    else
      var f := m.path[|m.path| - 1];
      Ok(m.(node := Node(f.kind, f.loc, f.left + [m.node]), path := m.path[..|m.path| - 1]))
  }

  /** `add(type)`: append a leaf of that type carrying the current location,
      first pushing an implicit `Group` unless the leaf is itself a `Group`
      or the cursor already is in one. */
  function Add(m: Make, t: Token): (r: Make)
    ensures t != Group && !In(m, Group) ==>
      && r.path == m.path + [Frame(m.node.kind, m.node.loc, m.node.children)]
      && r.node == Node(Group, m.location, [Leaf(t, m.location)])
    ensures !(t != Group && !In(m, Group)) ==>
      r.path == m.path && r.node == m.node.(children := m.node.children + [Leaf(t, m.location)])
    ensures r.location == m.location && r.mode == m.mode && (Rooted(m) ==> Rooted(r))
    ensures t != Group ==> In(r, Group) && Previous(r, t)
  {
    var m1 := if t != Group && !In(m, Group) then Descend(AddLeaf(m, Group)) else m;
    AddLeaf(m1, t)
  }

  /** `push(type)`: `add` it and move onto it. */
  function Push(m: Make, t: Token): (r: Make)
    ensures r.node == Leaf(t, m.location)
    ensures t != Group && !In(m, Group) ==> |r.path| == |m.path| + 2
    ensures !(t != Group && !In(m, Group)) ==> |r.path| == |m.path| + 1
    ensures r.path[..|m.path|] == m.path && Tree(r) == Tree(Add(m, t))
    ensures r.location == m.location && r.mode == m.mode && (Rooted(m) ==> Rooted(r))
  {
    var a := Add(m, t);
    assert a.node.children[|a.node.children| - 1] == Leaf(t, m.location);
    assert a.path[..|m.path|] == m.path;
    var r := Descend(a);
    assert r.path[..|m.path|] == r.path[..|a.path|][..|m.path|];
    r
  }

  /** `extend()`: grow the cursor node's span over the current match. */
  function ExtendNode(m: Make): (r: Make)
    ensures r.node.loc == Extend(m.node.loc, m.location)
    ensures r.node.kind == m.node.kind && r.node.children == m.node.children
    ensures r.path == m.path && r.location == m.location && r.mode == m.mode
  {
    m.(node := m.node.(loc := Extend(m.node.loc, m.location)))
  }

  /** `invalid()`: extend the cursor node if it is `Invalid`, else add an
      `Invalid` leaf. */
  function MarkInvalid(m: Make): (r: Make)
    ensures In(m, Invalid) ==> r == ExtendNode(m)
    ensures !In(m, Invalid) ==> r == Add(m, Invalid)
    ensures r.path[..|m.path|] == m.path && |r.path| >= |m.path|
    ensures r.location == m.location && r.mode == m.mode && (Rooted(m) ==> Rooted(r))
  {
    if In(m, Invalid) then ExtendNode(m) else Add(m, Invalid)
  }

  /** `pop(type)`: close the cursor node if it has that type, else record
      `Invalid` and leave every open node open. */
  function Pop(m: Make, t: Token): (r: Result<Make>)
    ensures In(m, t) && |m.path| > 0 ==>
      && r.Ok? && r.value.path == m.path[..|m.path| - 1]
      && r.value.node.kind == m.path[|m.path| - 1].kind
      && Tree(r.value) == Tree(ExtendNode(m))
    ensures In(m, t) && |m.path| == 0 ==> r.Err?
    ensures !In(m, t) ==> r.Ok? && r.value == MarkInvalid(m) && r.value.path[..|m.path|] == m.path
    ensures r.Ok? ==> r.value.location == m.location && r.value.mode == m.mode && (Rooted(m) ==> Rooted(r.value))
  {
    if In(m, t) then Up(ExtendNode(m)) else Ok(MarkInvalid(m))
  }

  /** `try_pop(type)`: close the cursor node if it has that type. */
  function TryPop(m: Make, t: Token): (r: Result<(Make, bool)>)
    ensures r.Ok? ==> (r.value.1 <==> In(m, t))
    ensures !In(m, t) ==> r == Ok((m, false))
    ensures In(m, t) ==> (r.Ok? <==> |m.path| > 0)
    ensures r.Ok? && r.value.1 ==> |r.value.0.path| == |m.path| - 1 && Tree(r.value.0) == Tree(ExtendNode(m))
    ensures r.Ok? ==> r.value.0.location == m.location && r.value.0.mode == m.mode && (Rooted(m) ==> Rooted(r.value.0))
  {
    if In(m, t) then
      match Up(ExtendNode(m))
      case Err(e) => Err(e)
      case Ok(m1) => Ok((m1, true))
    else Ok((m, false))
  }

  /** `term(ends)`: close a `Group`, then each listed type in turn. */
  function Term(m: Make, ends: seq<Token>): (r: Result<Make>)
    ensures r.Ok? ==> |r.value.path| <= |m.path| && r.value.location == m.location && r.value.mode == m.mode
    ensures r.Ok? && Rooted(m) ==> Rooted(r.value)
    ensures Rooted(m) ==> r.Ok? || |ends| > 0
    ensures |ends| == 0 ==> (r.Ok? <==> !In(m, Group) || |m.path| > 0)
    ensures In(m, Group) && r.Ok? ==> |r.value.path| < |m.path|
  {
    match TryPop(m, Group)
    case Err(e) => Err(e)
    case Ok((m1, _)) => TryPopEach(m1, ends)
  }

  function TryPopEach(m: Make, ends: seq<Token>): (r: Result<Make>)
    ensures r.Ok? ==> |r.value.path| <= |m.path| && r.value.location == m.location && r.value.mode == m.mode
    ensures r.Ok? && Rooted(m) ==> Rooted(r.value)
    ensures |ends| == 0 ==> r == Ok(m)
    decreases |ends|
  {
    if |ends| == 0 then Ok(m)
    else
      match TryPop(m, ends[0])
      case Err(e) => Err(e)
      case Ok((m1, _)) => TryPopEach(m1, ends[1..])
  }

  /** The climb of `seq`: move up while the parent's type is in `skip`. */
  function Climb(m: Make, skip: seq<Token>): (r: Result<Make>)
    ensures r.Ok? ==> |r.value.path| > 0 && r.value.path[|r.value.path| - 1].kind !in skip
    ensures r.Ok? ==> |r.value.path| <= |m.path| && r.value.path == m.path[..|r.value.path|]
    ensures r.Ok? ==> Tree(r.value) == Tree(m) && r.value.location == m.location && r.value.mode == m.mode
    ensures r.Err? <==> forall j | 0 <= j < |m.path| :: m.path[j].kind in skip
    decreases |m.path|
  {
    if |m.path| == 0 then Err(Fault("null parent"))
    else if m.path[|m.path| - 1].kind in skip then
      match Up(m)
      case Err(e) => Err(e)
      case Ok(m1) =>
        var r := Climb(m1, skip);
        if r.Ok? then
          assert r.value.path == m.path[..|m.path| - 1][..|r.value.path|];
          r
        else
          assert forall j | 0 <= j < |m1.path| :: m.path[j] == m1.path[j];
          r
    else Ok(m)
  }

  /** `seq(type, skip)`: outside a `Group` this is `invalid()`. Inside, climb
      past ancestors whose type is in `skip`; then enter the parent if it
      already has type `type`, else wrap the parent's last child (the
      climbed-to node) in a new `type` node and move onto that. */
  function SeqOp(m: Make, t: Token, skip: seq<Token>): (r: Result<Make>)
    ensures !In(m, Group) ==> r == Ok(MarkInvalid(m))
    ensures In(m, Group) ==> (r.Ok? ==> Climb(m, skip).Ok?)
    ensures In(m, Group) && r.Ok? && Climb(m, skip).Ok? ==>
      var c := Climb(m, skip).value;
      if c.path[|c.path| - 1].kind == t then
        r.value.node.kind == t && r.value.path == c.path[..|c.path| - 1] && Tree(r.value) == Tree(m)
      else
        r.value.node == Node(t, m.location, [c.node]) && r.value.path == c.path
    ensures r.Ok? ==> r.value.location == m.location && r.value.mode == m.mode
    ensures r.Ok? && Rooted(m) ==> Rooted(r.value)
  {
    if !In(m, Group) then Ok(MarkInvalid(m))
    else
      match Climb(m, skip)
      case Err(e) => Err(e)
      case Ok(c) =>
        if c.path[|c.path| - 1].kind == t then Up(c)
        else Ok(c.(node := Node(t, m.location, [c.node])))
  }

  /** `mode(next)`: request a mode switch after the current rule's effect. */
  function SetMode(m: Make, next: string): (r: Make)
    ensures r.mode == Some(next) && r.node == m.node && r.path == m.path && r.location == m.location
  {
    m.(mode := Some(next))
  }

  /** `done()` as the source writes it: close a trailing `Group`, then, while
      the cursor has a parent, add an `Unclosed` marker, close the `Group`
      holding it, step to the parent and close a `Group` there. */
  function Done(m: Make): (r: Result<Node>)
    ensures r.Ok? && Rooted(m) ==> r.value.kind == File
    ensures r.Ok? ==> r == DoneGuarded(m)
  {
    match Term(m, [])
    case Err(e) => Err(e)
    case Ok(m1) => CloseAll(m1)
  }

  function CloseAll(m: Make): (r: Result<Node>)
    ensures |m.path| == 0 ==> r == Ok(m.node)
    ensures r.Ok? && Rooted(m) ==> r.value.kind == File
    ensures r.Ok? ==> r == CloseAllGuarded(m)
    decreases |m.path|
  {
    if |m.path| == 0 then Ok(m.node)
    else
      match Term(Add(m, Unclosed), [])
      case Err(e) => Err(e)
      case Ok(b) =>
        match Up(b)
        case Err(e) => Err(e)
        case Ok(c) =>
          match Term(c, [])
          case Err(e) => Err(e)
          case Ok(d) => CloseAll(d)
  }

  /** `done()` with the step to the parent taken only when there is one.
      On a tree grown from `Start` it always succeeds and returns the root. */
  function DoneGuarded(m: Make): (r: Result<Node>)
    ensures Rooted(m) ==> r.Ok? && r.value.kind == File
  {
    match Term(m, [])
    case Err(e) => Err(e)
    case Ok(m1) => CloseAllGuarded(m1)
  }

  function CloseAllGuarded(m: Make): (r: Result<Node>)
    ensures |m.path| == 0 ==> r == Ok(m.node)
    ensures Rooted(m) ==> r.Ok? && r.value.kind == File
    decreases |m.path|
  {
    if |m.path| == 0 then Ok(m.node)
    else
      match Term(Add(m, Unclosed), [])
      case Err(e) => Err(e)
      case Ok(b) =>
        var c := if |b.path| > 0 then Up(b).value else b;
        match Term(c, [])
        case Err(e) => Err(e)
        case Ok(d) => CloseAllGuarded(d)
  }
}
