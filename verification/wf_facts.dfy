/** What a grammar of src/langkit/wf.h means: a declarative reading that
    the checker decides exactly, how `|` orders shapes, what field indexes
    resolve to, and the meaning of the shapes the operators build for a
    bare type. */
module WfFacts {
  import opened Ast
  import opened Wf
  import opened WfOps

  /** A tree conforms to a grammar: an empty grammar allows anything;
      otherwise the first shape for the node's type must exist, and either
      every child has an allowed type (`Sequence`) or there is exactly one
      child per field, of one of the field's types (`Fields`); children
      conform as well. */
  ghost predicate Accepts(wf: Wellformed, n: Node)
    decreases n, 1
  {
    || |wf| == 0
    || match FindShape(wf, n.kind)
       case None => false
       case Some(Sequence(c)) => SequenceFits(wf, c, n.children)
       case Some(Fields(fs)) => FieldsFit(wf, fs, n.children)
  }

  /** Every child has one of the allowed types and conforms. */
  ghost predicate SequenceFits(wf: Wellformed, c: Choice, cs: seq<Node>)
    decreases cs, 0
  {
    forall i | 0 <= i < |cs| :: cs[i].kind in c && Accepts(wf, cs[i])
  }

  /** One child per field, of one of the field's types, and conforming. */
  ghost predicate FieldsFit(wf: Wellformed, fs: seq<Field>, cs: seq<Node>)
    decreases cs, 0
  {
    |cs| == |fs| && forall i | 0 <= i < |fs| :: cs[i].kind in fs[i].choice && Accepts(wf, cs[i])
  }

  /** The checker succeeds exactly on conforming trees. */
  lemma {:induction false} CheckDecidesAccepts(wf: Wellformed, n: Node)
    ensures Check(wf, n).ok <==> Accepts(wf, n)
  {
    CheckNodeAccepts(wf, n);
  }

  lemma {:induction false} CheckNodeAccepts(wf: Wellformed, n: Node)
    ensures CheckNode(wf, n).ok <==> Accepts(wf, n)
    decreases n, 2
  {
    if |wf| > 0 {
      match FindShape(wf, n.kind)
      case None =>
      case Some(Sequence(c)) => CheckSequenceAccepts(wf, c, n.children);
      case Some(Fields(fs)) => CheckFieldsAccepts(wf, n, fs, n.children);
    }
  }

  lemma {:induction false} CheckSequenceAccepts(wf: Wellformed, c: Choice, cs: seq<Node>)
    ensures CheckSequence(wf, c, cs).ok <==> SequenceFits(wf, c, cs)
    decreases cs, 1
  {
    if |cs| > 0 {
      CheckNodeAccepts(wf, cs[0]);
      CheckSequenceAccepts(wf, c, cs[1..]);
      SequenceFitsStep(wf, c, cs);
    }
  }

  lemma SequenceFitsStep(wf: Wellformed, c: Choice, cs: seq<Node>)
    requires |cs| > 0
    ensures SequenceFits(wf, c, cs) <==>
      cs[0].kind in c && Accepts(wf, cs[0]) && SequenceFits(wf, c, cs[1..])
  {
    if cs[0].kind in c && Accepts(wf, cs[0]) && SequenceFits(wf, c, cs[1..]) {
      forall i | 1 <= i < |cs|
        ensures cs[i].kind in c && Accepts(wf, cs[i])
      {
        assert cs[i] == cs[1..][i - 1];
      }
    }
    if SequenceFits(wf, c, cs) {
      forall i | 0 <= i < |cs| - 1
        ensures cs[1..][i].kind in c && Accepts(wf, cs[1..][i])
      {
        assert cs[1..][i] == cs[i + 1];
      }
    }
  }

  lemma {:induction false} CheckFieldsAccepts(wf: Wellformed, parent: Node, fs: seq<Field>, cs: seq<Node>)
    ensures CheckFields(wf, parent, fs, cs).ok <==> FieldsFit(wf, fs, cs)
    decreases cs, 1
  {
    if |cs| > 0 && |fs| > 0 {
      CheckNodeAccepts(wf, cs[0]);
      CheckFieldsAccepts(wf, parent, fs[1..], cs[1..]);
      FieldsFitStep(wf, fs, cs);
    }
  }

  lemma FieldsFitStep(wf: Wellformed, fs: seq<Field>, cs: seq<Node>)
    requires |cs| > 0 && |fs| > 0
    ensures FieldsFit(wf, fs, cs) <==>
      cs[0].kind in fs[0].choice && Accepts(wf, cs[0]) && FieldsFit(wf, fs[1..], cs[1..])
  {
    if cs[0].kind in fs[0].choice && Accepts(wf, cs[0]) && FieldsFit(wf, fs[1..], cs[1..]) {
      forall i | 1 <= i < |fs|
        ensures cs[i].kind in fs[i].choice && Accepts(wf, cs[i])
      {
        assert cs[i] == cs[1..][i - 1] && fs[i] == fs[1..][i - 1];
      }
    }
    if FieldsFit(wf, fs, cs) {
      forall i | 0 <= i < |fs| - 1
        ensures cs[1..][i].kind in fs[1..][i].choice && Accepts(wf, cs[1..][i])
      {
        assert cs[1..][i] == cs[i + 1] && fs[1..][i] == fs[i + 1];
      }
    }
  }

  /** Shape lookup in a concatenation sees the left part first. */
  lemma {:induction false} FindShapeAppend(x: Wellformed, y: Wellformed, kind: Token)
    ensures FindShape(x + y, kind) == if FindShape(x, kind).Some? then FindShape(x, kind) else FindShape(y, kind)
    decreases |x|
  {
    if |x| == 0 {
      assert x + y == y;
    } else {
      assert (x + y)[0] == x[0];
      assert (x + y)[1..] == x[1..] + y;
      FindShapeAppend(x[1..], y, kind);
    }
  }

  /** In `a | b` a type shaped by the left operand keeps that shape; the
      right operand only adds shapes for new types. */
  lemma OrLeftFirst(a: WfArg, b: WfArg, kind: Token)
    requires GrammarOr(a, b)
    ensures FindShape(Or(a, b), kind) ==
      if FindShape(Lift(a), kind).Some? then FindShape(Lift(a), kind) else FindShape(Lift(b), kind)
  {
    FindShapeAppend(Lift(a), Lift(b), kind);
  }

  /** The same holds for `|` as the source writes it, on the operands as it
      lifts them. */
  lemma OrAsWrittenLeftFirst(a: WfArg, b: WfArg, kind: Token)
    requires GrammarOr(a, b)
    ensures FindShape(OrAsWritten(a, b), kind) ==
      if FindShape(LiftAsWritten(a, false), kind).Some? then FindShape(LiftAsWritten(a, false), kind)
      else FindShape(LiftAsWritten(b, a.WfA?), kind)
  {
    FindShapeAppend(LiftAsWritten(a, false), LiftAsWritten(b, a.WfA?), kind);
  }

  /** A type whose shape has no fields accepts exactly the childless nodes. */
  lemma LeafShapeAcceptsLeaves(wf: Wellformed, n: Node)
    requires FindShape(wf, n.kind) == Some(Fields([]))
    ensures CheckNode(wf, n).ok <==> n.children == []
  {
  }

  /** A type whose shape is `t <<= t` accepts no node at all: each node of
      type `t` would need a child of type `t` that is accepted in turn. */
  lemma {:induction false} SelfShapeRejects(wf: Wellformed, t: Token, n: Node)
    requires FindShape(wf, t) == Some(SelfShape(t).shape) && n.kind == t
    ensures !CheckNode(wf, n).ok
    decreases n
  {
    if CheckNode(wf, n).ok {
      var fs := SelfShape(t).shape.fields;
      assert CheckFields(wf, n, fs, n.children).ok;
      assert |n.children| == 1 && n.children[0].kind == t;
      assert CheckChild(wf, fs[0].choice, n.children[0]).ok;
      SelfShapeRejects(wf, t, n.children[0]);
    }
  }

  /** `to_wf(choice)` allows exactly the childless nodes of the listed
      types (and, for an empty choice, every node). */
  lemma ToWfChoiceLeaves(c: Choice, n: Node)
    ensures |c| == 0 ==> Check(ToWfChoice(c), n).ok
    ensures |c| > 0 ==> (Check(ToWfChoice(c), n).ok <==> n.kind in c && n.children == [])
  {
    var wf := ToWfChoice(c);
    ToWfChoiceShape(c, n.kind);
    if n.kind in c {
      LeafShapeAcceptsLeaves(wf, n);
    }
  }

  /** The shape `to_wf(choice)` gives a type: a leaf exactly for the listed
      types. */
  lemma ToWfChoiceShape(c: Choice, kind: Token)
    ensures FindShape(ToWfChoice(c), kind) == if kind in c then Some(Fields([])) else None
  {
    var wf := ToWfChoice(c);
    if kind in c {
      var j :| 0 <= j < |c| && c[j] == kind;
      assert wf[j].kind == kind;
      var r := FindShape(wf, kind);
      var i :| 0 <= i < |wf| && wf[i].kind == kind && wf[i].shape == r.value;
      assert wf[i] == LeafShape(c[i]);
    } else {
      forall j | 0 <= j < |wf|
        ensures wf[j].kind != kind
      {
        assert wf[j] == LeafShape(c[j]);
      }
    }
  }

  /** `to_wf(type)` as written rejects every node of that type. */
  lemma ToWfTokenAsWrittenRejects(t: Token, n: Node)
    requires n.kind == t
    ensures !Check(ToWfTokenAsWritten(t), n).ok
  {
    SelfShapeRejects(ToWfTokenAsWritten(t), t, n);
  }

  /** `to_wf(type)` with the leaf reading allows exactly childless nodes of
      that type. */
  lemma ToWfTokenAcceptsLeaves(t: Token, n: Node)
    ensures Check(ToWfToken(t), n).ok <==> n.kind == t && n.children == []
  {
    var wf := ToWfToken(t);
    assert wf[0] == ShapeDef(t, Fields([]));
    assert FindShape(wf, n.kind) == if n.kind == t then Some(Fields([])) else None;
    if n.kind == t {
      LeafShapeAcceptsLeaves(wf, n);
    }
  }

  /** The source gives `to_wf(s) | t` and `s | t` different meanings: the
      first allows a `t` leaf, the second allows no `t` node at all. With
      the leaf reading both allow the `t` leaf. */
  lemma OrTokenDependsOnLeftOperand(s: ShapeDef, t: Token, loc: Location)
    requires s.kind != t
    ensures Check(OrAsWritten(WfA(ToWfShape(s)), TokenA(t)), Leaf(t, loc)).ok
    ensures !Check(OrAsWritten(ShapeA(s), TokenA(t)), Leaf(t, loc)).ok
    ensures Check(Or(WfA(ToWfShape(s)), TokenA(t)), Leaf(t, loc)).ok
    ensures Check(Or(ShapeA(s), TokenA(t)), Leaf(t, loc)).ok
  {
    var n := Leaf(t, loc);
    var leafWf := OrAsWritten(WfA(ToWfShape(s)), TokenA(t));
    assert leafWf == [s] + [LeafShape(t)];
    FindShapeAppend([s], [LeafShape(t)], t);
    assert FindShape([LeafShape(t)], t) == Some(Fields([]));
    LeafShapeAcceptsLeaves(leafWf, n);
    var wf := OrAsWritten(ShapeA(s), TokenA(t));
    FindShapeAppend([s], [SelfShape(t)], t);
    SelfShapeRejects(wf, t, n);
    FindShapeAppend([s], [LeafShape(t)], t);
  }

  /** A field index resolved through the grammar points at an existing
      child of every node the grammar accepts, and that child has one of
      the field's types. */
  lemma IndexResolvesField(wf: Wellformed, n: Node, name: Token)
    requires Check(wf, n).ok
    ensures var ix := IndexWellformed(wf, n.kind, name);
      ix.Index? ==>
        && ix.kind == n.kind
        && FindShape(wf, n.kind).Some? && FindShape(wf, n.kind).value.Fields?
        && var fs := FindShape(wf, n.kind).value.fields;
           && ix.index < |n.children| && ix.index < |fs|
           && fs[ix.index].name == name
           && n.children[ix.index].kind in fs[ix.index].choice
  {
    var ix := IndexWellformed(wf, n.kind, name);
    if ix.Index? {
      var fs := FindShape(wf, n.kind).value.fields;
      assert CheckFields(wf, n, fs, n.children).ok;
    }
  }

  /** `k <<= t`: a node of type `k` conforms exactly when it has a single
      child, of type `t`, that conforms. */
  lemma TokenFieldShapeMeaning(wf: Wellformed, k: Token, t: Token, n: Node)
    requires n.kind == k && FindShape(wf, k) == Some(ShapeOf(k, FieldsOf(TokenArg(t))).shape)
    ensures CheckNode(wf, n).ok <==>
      |n.children| == 1 && n.children[0].kind == t && CheckNode(wf, n.children[0]).ok
  {
    var fs := ShapeOf(k, FieldsOf(TokenArg(t))).shape.fields;
    assert fs == [Field(t, [t])];
    assert CheckNode(wf, n) == CheckFields(wf, n, fs, n.children);
    if |n.children| == 1 {
      var c := n.children[0];
      assert n.children[1..] == [] && fs[1..] == [];
      assert CheckFields(wf, n, fs[1..], n.children[1..]) == Verdict(true, []);
      assert CheckChild(wf, [t], c).ok <==> c.kind == t && CheckNode(wf, c).ok;
    }
  }

  /** The fields of `a * b` are checked as `a`'s fields against the first
      children and `b`'s against the rest. */
  lemma ProductFieldsSplit(wf: Wellformed, a: FieldsArg, b: FieldsArg, cs: seq<Node>)
    ensures FieldsFit(wf, Product(a, b), cs) <==>
      && |cs| == |AsFields(a)| + |AsFields(b)|
      && FieldsFit(wf, AsFields(a), cs[..|AsFields(a)|])
      && FieldsFit(wf, AsFields(b), cs[|AsFields(a)|..])
  {
    FieldsFitAppend(wf, AsFields(a), AsFields(b), cs);
  }

  lemma FieldsFitAppend(wf: Wellformed, x: seq<Field>, y: seq<Field>, cs: seq<Node>)
    ensures FieldsFit(wf, x + y, cs) <==>
      |cs| == |x| + |y| && FieldsFit(wf, x, cs[..|x|]) && FieldsFit(wf, y, cs[|x|..])
  {
    if |cs| == |x| + |y| {
      if FieldsFit(wf, x, cs[..|x|]) && FieldsFit(wf, y, cs[|x|..]) {
        forall i | 0 <= i < |x + y|
          ensures cs[i].kind in (x + y)[i].choice && Accepts(wf, cs[i])
        {
          if i < |x| {
            assert cs[..|x|][i] == cs[i];
          } else {
            assert cs[|x|..][i - |x|] == cs[i];
          }
        }
      }
      if FieldsFit(wf, x + y, cs) {
        forall i | 0 <= i < |x|
          ensures cs[..|x|][i].kind in x[i].choice && Accepts(wf, cs[..|x|][i])
        {
          assert (x + y)[i] == x[i];
        }
        forall i | 0 <= i < |y|
          ensures cs[|x|..][i].kind in y[i].choice && Accepts(wf, cs[|x|..][i])
        {
          assert (x + y)[|x| + i] == y[i];
        }
      }
    }
  }
}
