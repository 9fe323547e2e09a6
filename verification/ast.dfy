/** The shared tree of typed, located nodes that the lexer builds, the
    rewrite passes transform and the well-formedness checker validates.

    Parent back-references are not stored: a node's parent is always the node
    whose `children` sequence is being examined, and the lexer's cursor is a
    zipper (see module Make). */
module Ast {

  /** A token names a node's syntactic category. Tokens are compared by name. */
  type Token = string

  const Group: Token := "group"
  const File: Token := "file"
  const Invalid: Token := "invalid"
  const Unclosed: Token := "unclosed"

  /** A span (source identity, byte offset, byte length). Source 0 is the
      default-constructed location that refers to no source. */
  datatype Location = Location(source: nat, pos: nat, len: nat)
  {
    function End(): nat { pos + len }
  }

  const NoLocation := Location(0, 0, 0)

  /** `Location::extend`: grow a span so that it also covers `that`, when
      both lie in the same source; a span in another source is ignored. */
  function Extend(loc: Location, that: Location): (r: Location)
    ensures r.source == loc.source
    ensures loc.source == that.source ==>
      r.pos <= loc.pos && r.pos <= that.pos && loc.End() <= r.End() && that.End() <= r.End()
    ensures loc.source != that.source ==> r == loc
  {
    if loc.source != that.source then loc
    else
      var lo := if loc.pos <= that.pos then loc.pos else that.pos;
      var hi := if loc.End() >= that.End() then loc.End() else that.End();
      Location(loc.source, lo, hi - lo)
  }

  datatype Node = Node(kind: Token, loc: Location, children: seq<Node>)

  /** `NodeDef::create(type, location)`: a fresh node with no children. */
  function Leaf(kind: Token, loc: Location): Node {
    Node(kind, loc, [])
  }

  datatype Option<T> = None | Some(value: T)

  /** A failure is either a fault the source reports (an exception, or a
      null-parent dereference it does not guard against) or the model's
      fuel bound running out where the source would keep going. */
  datatype Error = Fault(msg: string) | NoFuel

  datatype Result<T> = Ok(value: T) | Err(error: Error)

  /** Number of nodes of kind `k` in a tree. */
  function Count(k: Token, n: Node): nat
    decreases n, 1
  {
    (if n.kind == k then 1 else 0) + CountAll(k, n.children)
  }

  function CountAll(k: Token, ns: seq<Node>): nat
    decreases ns, 0
  {
    if |ns| == 0 then 0 else CountAll(k, ns[..|ns| - 1]) + Count(k, ns[|ns| - 1])
  }

  /** Counting distributes over concatenation of sibling sequences. */
  lemma {:induction false} CountAllAppend(k: Token, a: seq<Node>, b: seq<Node>)
    ensures CountAll(k, a + b) == CountAll(k, a) + CountAll(k, b)
    decreases |b|
  {
    if |b| == 0 {
      assert a + b == a;
    } else {
      var b' := b[..|b| - 1];
      assert (a + b)[..|a + b| - 1] == a + b';
      assert (a + b)[|a + b| - 1] == b[|b| - 1];
      CountAllAppend(k, a, b');
    }
  }
}
