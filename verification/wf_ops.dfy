/** The grammar-building operators of src/langkit/wf.h (namespace `ops` and
    `to_wf`). The C++ overloads on `Token`, `Choice`, `Field`, `Fields`,
    `Shape` and `Wellformed` become one function per operator over a sum of
    the argument kinds. */
module WfOps {
  import opened Ast
  import opened Wf

  /** `|` between tokens and choices: the left operand's types, then the
      right operand's, each in its own order. A single token is a choice of
      one. */
  function ChoiceOr(c1: Choice, c2: Choice): (r: Choice)
    ensures |r| == |c1| + |c2| && r[..|c1|] == c1 && r[|c1|..] == c2
    ensures forall t :: t in r <==> t in c1 || t in c2
  {
    c1 + c2
  }

  /** `name >>= type`: a field holding one type. */
  function TokenField(name: Token, t: Token): (f: Field)
    ensures f.name == name && f.choice == [t]
  {
    Field(name, [t])
  }

  /** What `*` and `<<=` accept besides a type name. */
  datatype FieldsArg =
    | TokenArg(t: Token)
    | FieldArg(field: Field)
    | FieldsArgs(fields: seq<Field>)

  /** A bare type `t` among fields stands for `t >>= t`. */
  function AsFields(a: FieldsArg): (r: seq<Field>)
    ensures a.TokenArg? ==> r == [TokenField(a.t, a.t)]
    ensures a.FieldArg? ==> r == [a.field]
    ensures a.FieldsArgs? ==> r == a.fields
  {
    match a
    case TokenArg(t) => [TokenField(t, t)]
    case FieldArg(f) => [f]
    case FieldsArgs(fs) => fs
  }

  /** `*`: the fields of both operands, left first. */
  function Product(a: FieldsArg, b: FieldsArg): (r: seq<Field>)
    ensures |r| == |AsFields(a)| + |AsFields(b)|
    ensures r[..|AsFields(a)|] == AsFields(a) && r[|AsFields(a)|..] == AsFields(b)
  {
    AsFields(a) + AsFields(b)
  }

  /** The right operand of `<<=`. */
  datatype ShapeArg = SeqArg(choice: Choice) | FieldsOf(arg: FieldsArg)

  /** `type <<= seq`, `type <<= fields`, `type <<= field` and
      `type1 <<= type2`; the last is a single field named `type2` of type
      `type2`. */
  function ShapeOf(kind: Token, arg: ShapeArg): (r: ShapeDef)
    ensures r.kind == kind
    ensures arg.SeqArg? ==> r.shape == Sequence(arg.choice)
    ensures arg.FieldsOf? && arg.arg.TokenArg? ==> r.shape == Fields([Field(arg.arg.t, [arg.arg.t])])
    ensures arg.FieldsOf? ==> r.shape == Fields(AsFields(arg.arg))
  {
    match arg
    case SeqArg(c) => ShapeDef(kind, Sequence(c))
    case FieldsOf(a) => ShapeDef(kind, Fields(AsFields(a)))
  }

  /** A type with no children: `type <<= Fields<>({})`. */
  function LeafShape(t: Token): (r: ShapeDef)
    ensures r == ShapeDef(t, Fields([]))
  {
    ShapeOf(t, FieldsOf(FieldsArgs([])))
  }

  /** `t <<= t`: one field of type `t`. */
  function SelfShape(t: Token): (r: ShapeDef)
    ensures r == ShapeDef(t, Fields([Field(t, [t])]))
  {
    ShapeOf(t, FieldsOf(TokenArg(t)))
  }

  /** The iteration of `to_wf<I>(choice, wf)`: add a leaf shape for each
      type of the choice from position `i` on. */
  function ToWfChoiceFrom(c: Choice, i: nat, wf: Wellformed): (r: Wellformed)
    requires i <= |c|
    ensures |r| == |wf| + |c| - i && r[..|wf|] == wf
    ensures forall j | i <= j < |c| :: r[|wf| + j - i] == LeafShape(c[j])
    decreases |c| - i
  {
    if i == |c| then wf
    else
      var r := ToWfChoiceFrom(c, i + 1, wf + [LeafShape(c[i])]);
      assert r[..|wf|] == r[..|wf| + 1][..|wf|];
      r
  }

  /** `to_wf(choice)`: a leaf shape for each type of the choice, in order. */
  function ToWfChoice(c: Choice): (r: Wellformed)
    ensures |r| == |c| && forall j | 0 <= j < |c| :: r[j] == LeafShape(c[j])
  {
    ToWfChoiceFrom(c, 0, [])
  }

  /** `to_wf(type)` as the source writes it: `Wellformed{} | (type <<= type)`. */
  function ToWfTokenAsWritten(t: Token): (r: Wellformed)
    ensures r == [SelfShape(t)]
  {
    [ShapeOf(t, FieldsOf(TokenArg(t)))]
  }

  /** `to_wf(type)` with a bare type meaning a leaf, as `wf | type` and
      `to_wf(choice)` treat it. */
  function ToWfToken(t: Token): (r: Wellformed)
    ensures r == [LeafShape(t)]
  {
    [LeafShape(t)]
  }

  /** `to_wf(shape)`. */
  function ToWfShape(s: ShapeDef): (r: Wellformed)
    ensures |r| == 1 && r[0] == s
  {
    [s]
  }

  /** The operands `|` takes when it builds a grammar. */
  datatype WfArg =
    | WfA(wf: Wellformed)
    | ShapeA(shape: ShapeDef)
    | ChoiceA(choice: Choice)
    | TokenA(t: Token)

  /** Grammar `|` exists exactly when one side is a grammar or a shape; the
      other combinations are the choice `|`. */
  predicate GrammarOr(a: WfArg, b: WfArg) {
    a.WfA? || a.ShapeA? || b.WfA? || b.ShapeA?
  }

  /** How the source turns an operand into shapes. A choice always becomes
      leaf shapes; a bare type becomes a leaf only on the right of a
      grammar (`wf | type`) and the self-field `type <<= type` everywhere
      else (`shape | type`, `type | wf`, `type | shape`). */
  function LiftAsWritten(a: WfArg, rightOfGrammar: bool): (r: Wellformed)
    ensures a.TokenA? && rightOfGrammar ==> r == [LeafShape(a.t)]
    ensures a.TokenA? && !rightOfGrammar ==> r == [SelfShape(a.t)]
  {
    match a
    case WfA(wf) => wf
    case ShapeA(s) => [s]
    case ChoiceA(c) => ToWfChoice(c)
    case TokenA(t) => if rightOfGrammar then [LeafShape(t)] else ToWfTokenAsWritten(t)
  }

  /** Grammar `|` as written: the shapes of the left operand, then those of
      the right. */
  function OrAsWritten(a: WfArg, b: WfArg): (r: Wellformed)
    requires GrammarOr(a, b)
    ensures a.WfA? && b.TokenA? ==> r == a.wf + [LeafShape(b.t)]
    ensures a.ShapeA? && b.TokenA? ==> r == [a.shape, SelfShape(b.t)]
    ensures a.TokenA? ==> |r| > 0 && r[0] == SelfShape(a.t)
    ensures a.ChoiceA? ==> |r| >= |a.choice| && r[..|a.choice|] == ToWfChoice(a.choice)
  {
    LiftAsWritten(a, false) + LiftAsWritten(b, a.WfA?)
  }

  /** An operand's shapes with every bare type a leaf. */
  function Lift(a: WfArg): (r: Wellformed)
    ensures a.TokenA? ==> r == [LeafShape(a.t)]
    ensures a.ChoiceA? ==> r == ToWfChoice(a.choice)
    ensures !a.TokenA? ==> r == LiftAsWritten(a, false)
  {
    match a
    case WfA(wf) => wf
    case ShapeA(s) => [s]
    case ChoiceA(c) => ToWfChoice(c)
    case TokenA(t) => ToWfToken(t)
  }

  /** Grammar `|` with every bare type a leaf. It differs from the source
      only where a bare type is not on the right of a grammar. */
  function Or(a: WfArg, b: WfArg): (r: Wellformed)
    requires GrammarOr(a, b)
    ensures |r| == |Lift(a)| + |Lift(b)| && r[..|Lift(a)|] == Lift(a) && r[|Lift(a)|..] == Lift(b)
    ensures !a.TokenA? && !(b.TokenA? && !a.WfA?) ==> r == OrAsWritten(a, b)
  {
    Lift(a) + Lift(b)
  }
}
