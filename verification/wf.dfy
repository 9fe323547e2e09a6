/** The well-formedness checker of src/langkit/wf.h.

    A grammar (`Wellformed`) is an ordered list of shapes, one per node
    type. A shape either allows any number of children drawn from a choice
    of types (`Sequence`) or demands an exact list of named, typed fields
    (`Fields`). The compile-time tuples of the source become sequences, and
    the text written to the diagnostic stream becomes a list of `Diag`
    records in the order they would be written. */
module Wf {
  import opened Ast

  /** `Choice<N>`: the allowed types, in declaration order. */
  type Choice = seq<Token>

  datatype Field = Field(name: Token, choice: Choice)

  datatype Shape = Sequence(choice: Choice) | Fields(fields: seq<Field>)

  datatype ShapeDef = ShapeDef(kind: Token, shape: Shape)

  type Wellformed = seq<ShapeDef>

  /** One message of the diagnostic stream. */
  datatype Diag =
    | Unexpected(kind: Token, loc: Location, expected: Choice)
    | NoShape(kind: Token, loc: Location)
    | TooFew(kind: Token, loc: Location)
    | TooMany(kind: Token, loc: Location)

  /** The boolean a check returns and what it wrote. */
  datatype Verdict = Verdict(ok: bool, diags: seq<Diag>)

  /** `Choice::check`: accept a node whose type is listed, else report it. */
  function CheckChoice(c: Choice, n: Node): (r: Verdict)
    ensures r.ok <==> n.kind in c
    ensures r.ok <==> |r.diags| == 0
    ensures !r.ok ==> r.diags == [Unexpected(n.kind, n.loc, c)]
  {
    if n.kind in c then Verdict(true, []) else Verdict(false, [Unexpected(n.kind, n.loc, c)])
  }

  /** The first shape the grammar declares for a type. */
  function FindShape(wf: Wellformed, kind: Token): (r: Option<Shape>)
    ensures r.None? <==> forall j | 0 <= j < |wf| :: wf[j].kind != kind
    ensures r.Some? ==> exists j | 0 <= j < |wf| :: wf[j].kind == kind && wf[j].shape == r.value
                                                 && forall i | 0 <= i < j :: wf[i].kind != kind
    decreases |wf|
  {
    if |wf| == 0 then None
    else if wf[0].kind == kind then Some(wf[0].shape)
    else
      var r := FindShape(wf[1..], kind);
      if r.Some? then
        ghost var j :| 0 <= j < |wf[1..]| && wf[1..][j].kind == kind && wf[1..][j].shape == r.value
                       && forall i | 0 <= i < j :: wf[1..][i].kind != kind;
        assert wf[j + 1].kind == kind && forall i | 0 <= i < j + 1 :: wf[i].kind != kind;
        r
      else r
  }

  /** `Wellformed::check`: a grammar with no shapes accepts everything;
      otherwise the node's type must have a shape, and the first one is
      checked against the node. Children are checked against the whole
      grammar. Every failure writes at least one diagnostic and a success
      writes none. */
  function CheckNode(wf: Wellformed, n: Node): (r: Verdict)
    ensures r.ok <==> |r.diags| == 0
    ensures |wf| == 0 ==> r.ok
    ensures |wf| > 0 && FindShape(wf, n.kind).None? ==> r == Verdict(false, [NoShape(n.kind, n.loc)])
    decreases n, 2
  {
    if |wf| == 0 then Verdict(true, [])
    else
      match FindShape(wf, n.kind)
      case None => Verdict(false, [NoShape(n.kind, n.loc)])
      case Some(Sequence(c)) => CheckSequence(wf, c, n.children)
      case Some(Fields(fs)) => CheckFields(wf, n, fs, n.children)
  }

  /** The check of one child against an allowed choice: `types.check(child)
      && top.check(child)`, so a child of a disallowed type is not
      descended into. */
  function CheckChild(wf: Wellformed, c: Choice, child: Node): (r: Verdict)
    ensures r.ok <==> |r.diags| == 0
    ensures child.kind !in c ==> r == CheckChoice(c, child)
    ensures r.ok ==> child.kind in c
    decreases child, 3
  {
    if child.kind in c then CheckNode(wf, child) else CheckChoice(c, child)
  }

  /** `Sequence::check`: every child is checked, also after one has failed,
      and the diagnostics of each child are all reported. */
  function CheckSequence(wf: Wellformed, c: Choice, cs: seq<Node>): (r: Verdict)
    ensures r.ok <==> |r.diags| == 0
    ensures r.ok ==> forall i | 0 <= i < |cs| :: cs[i].kind in c
    ensures forall i | 0 <= i < |cs| :: multiset(CheckChild(wf, c, cs[i]).diags) <= multiset(r.diags)
    decreases cs, 1
  {
    if |cs| == 0 then Verdict(true, [])
    else
      var v := CheckChild(wf, c, cs[0]);
      var rest := CheckSequence(wf, c, cs[1..]);
      assert forall i | 1 <= i < |cs| :: cs[i] == cs[1..][i - 1];
      Verdict(v.ok && rest.ok, v.diags + rest.diags)
  }

  /** `Fields::check` through `check_field`: pair the children with the
      fields in order; a node with fewer children than fields reports "too
      few", one with more reports "too many" at the first extra child, and
      otherwise the result is the conjunction of the per-field checks. */
  function CheckFields(wf: Wellformed, parent: Node, fs: seq<Field>, cs: seq<Node>): (r: Verdict)
    ensures r.ok <==> |r.diags| == 0
    ensures r.ok ==> |cs| == |fs| && forall i | 0 <= i < |cs| :: cs[i].kind in fs[i].choice
    ensures |cs| < |fs| ==> TooFew(parent.kind, parent.loc) in r.diags
    ensures |cs| > |fs| ==> TooMany(parent.kind, cs[|fs|].loc) in r.diags
    ensures forall i | 0 <= i < |cs| && i < |fs| ::
      multiset(CheckChild(wf, fs[i].choice, cs[i]).diags) <= multiset(r.diags)
    decreases cs, 1
  {
    if |cs| == 0 then
      if |fs| > 0 then Verdict(false, [TooFew(parent.kind, parent.loc)]) else Verdict(true, [])
    else if |fs| == 0 then Verdict(false, [TooMany(parent.kind, cs[0].loc)])
    else
      var v := CheckChild(wf, fs[0].choice, cs[0]);
      var rest := CheckFields(wf, parent, fs[1..], cs[1..]);
      assert forall i | 1 <= i < |cs| :: cs[i] == cs[1..][i - 1];
      assert forall i | 1 <= i < |fs| :: fs[i] == fs[1..][i - 1];
      Verdict(v.ok && rest.ok, v.diags + rest.diags)
  }

  /** `wf::check(wf, node)`. */
  function Check(wf: Wellformed, n: Node): (r: Verdict)
    ensures r.ok <==> |r.diags| == 0
  {
    CheckNode(wf, n)
  }

  /** A resolved field position, or the empty `Index`. */
  datatype Index = NoIndex | Index(kind: Token, index: nat)

  /** `index_fields`: the position of the first field called `name`. */
  function IndexFields(fs: seq<Field>, kind: Token, name: Token): (r: Index)
    ensures r.NoIndex? <==> forall j | 0 <= j < |fs| :: fs[j].name != name
    ensures r.Index? ==>
      && r.kind == kind && r.index < |fs| && fs[r.index].name == name
      && forall j | 0 <= j < r.index :: fs[j].name != name
  {
    IndexFieldsFrom(fs, kind, name, 0)
  }

  function IndexFieldsFrom(fs: seq<Field>, kind: Token, name: Token, i: nat): (r: Index)
    requires i <= |fs|
    ensures r.NoIndex? <==> forall j | i <= j < |fs| :: fs[j].name != name
    ensures r.Index? ==>
      && r.kind == kind && i <= r.index < |fs| && fs[r.index].name == name
      && forall j | i <= j < r.index :: fs[j].name != name
    decreases |fs| - i
  {
    if i == |fs| then NoIndex
    else if fs[i].name == name then Index(kind, i)
    else IndexFieldsFrom(fs, kind, name, i + 1)
  }

  /** `index_wellformed` (and `wf / type / name`): search the first shape
      for the type; a `Sequence` shape or a type without a shape has no
      fields to index. */
  function IndexWellformed(wf: Wellformed, kind: Token, name: Token): (r: Index)
    ensures FindShape(wf, kind).None? ==> r == NoIndex
    ensures FindShape(wf, kind).Some? && FindShape(wf, kind).value.Sequence? ==> r == NoIndex
    ensures FindShape(wf, kind).Some? && FindShape(wf, kind).value.Fields? ==>
      r == IndexFields(FindShape(wf, kind).value.fields, kind, name)
    decreases |wf|
  {
    if |wf| == 0 then NoIndex
    else if wf[0].kind == kind then
      match wf[0].shape
      case Fields(fs) => IndexFields(fs, wf[0].kind, name)
      case Sequence(_) => NoIndex
    else IndexWellformed(wf[1..], kind, name)
  }
}
