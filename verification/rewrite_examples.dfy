/** Worked instances of the matcher and the pass scheduler. */
module RewriteExamples {
  import opened Ast
  import opened Captures
  import opened Patterns
  import opened Passes

  const Number: Token := "number"
  const Plus: Token := "plus"
  const Add: Token := "add"

  function NoOracle(): Oracle {
    Oracle((re, l) => false, (n, l) => None, (n, l, t) => None)
  }

  /** `T(Number)[lhs] * (T(Plus) * T(Number)[rhs])` */
  function SumPattern(): Pattern {
    Seq(Cap("lhs", TokenMatch(Number)), Seq(TokenMatch(Plus), Cap("rhs", TokenMatch(Number))))
  }

  /** The effect `Add << _[lhs] << _[rhs]`. */
  function SumEffect(c: Capture): Result<Node> {
    Ok(Node(Add, NoLocation, Range(c, "lhs") + Range(c, "rhs")))
  }

  /** Matching `[Number, Plus, Number]` consumes all three siblings and
      captures the first and last under `lhs` and `rhs`. */
  lemma SumCaptures(n1: Node, plus: Node, n2: Node)
    requires n1.kind == Number && plus.kind == Plus && n2.kind == Number
    ensures var parent := Node(Group, NoLocation, [n1, plus, n2]);
      var r := Match(NoOracle(), SumPattern(), parent, 0, Empty);
      r.ok && r.pos == 3 && Range(r.cap, "lhs") == [n1] && Range(r.cap, "rhs") == [n2]
  {
    var o := NoOracle();
    var parent := Node(Group, NoLocation, [n1, plus, n2]);
    var inner := Seq(TokenMatch(Plus), Cap("rhs", TokenMatch(Number)));
    var a := Match(o, Cap("lhs", TokenMatch(Number)), parent, 0, Copy(Empty));
    assert parent.children[0..1] == [n1];
    assert a.ok && a.pos == 1 && a.cap.captures["lhs"] == [n1];
    var b := Match(o, inner, parent, 1, a.cap);
    var b1 := Match(o, TokenMatch(Plus), parent, 1, Copy(a.cap));
    assert b1.ok && b1.pos == 2;
    var b2 := Match(o, Cap("rhs", TokenMatch(Number)), parent, 2, b1.cap);
    assert parent.children[2..3] == [n2];
    assert b2.ok && b2.pos == 3 && b2.cap.captures["rhs"] == [n2];
    assert b.ok && b.pos == 3 && b.cap.captures["lhs"] == [n1] && b.cap.captures["rhs"] == [n2];
  }

  /** `Children` does not require the child pattern to reach the end of the
      children: `T(Add) << T(Number)` matches an `Add` with two children. */
  lemma ChildrenMatchesPrefix(n1: Node, n2: Node)
    requires n1.kind == Number && n2.kind == Number
    ensures var parent := Node(Group, NoLocation, [Node(Add, NoLocation, [n1, n2])]);
      Match(NoOracle(), Children(TokenMatch(Add), TokenMatch(Number)), parent, 0, Empty).ok
  {
  }

  /** Applying the rule to `[Number, Plus, Number]` replaces the three
      siblings with one `Add` node holding the two numbers, and counts one
      change; the `Add` node itself matches no rule. */
  lemma SumRewrite(n1: Node, plus: Node, n2: Node)
    requires n1.kind == Number && plus.kind == Plus && n2.kind == Number
    ensures var parent := Node(Group, NoLocation, [n1, plus, n2]);
      Apply(NoOracle(), [Rule(SumPattern(), SumEffect)], parent, 1)
        == Ok((Node(Group, NoLocation, [Node(Add, NoLocation, [n1, n2])]), 1))
  {
    FirstStep(n1, plus, n2);
    SecondStep(n1, n2);
  }

  lemma SecondStep(n1: Node, n2: Node)
    requires n1.kind == Number && n2.kind == Number
    ensures var next := Node(Group, NoLocation, [Node(Add, NoLocation, [n1, n2])]);
      ApplyFrom(NoOracle(), [Rule(SumPattern(), SumEffect)], next, 0, 1, 0) == Ok((next, 1))
  {
    var o := NoOracle();
    var rules := [Rule(SumPattern(), SumEffect)];
    var next := Node(Group, NoLocation, [Node(Add, NoLocation, [n1, n2])]);
    assert !Match(o, SumPattern(), next, 0, Empty).ok;
    assert TryRules(o, rules, 0, next, 0) == NoRule(0);
    ApplyStep(o, rules, next, 0, 1, 0);
  }

  lemma FirstStep(n1: Node, plus: Node, n2: Node)
    requires n1.kind == Number && plus.kind == Plus && n2.kind == Number
    ensures var parent := Node(Group, NoLocation, [n1, plus, n2]);
      var next := Node(Group, NoLocation, [Node(Add, NoLocation, [n1, n2])]);
      ApplyFrom(NoOracle(), [Rule(SumPattern(), SumEffect)], parent, 0, 0, 1)
        == ApplyFrom(NoOracle(), [Rule(SumPattern(), SumEffect)], next, 0, 1, 0)
  {
    var rules := [Rule(SumPattern(), SumEffect)];
    var parent := Node(Group, NoLocation, [n1, plus, n2]);
    var add := Node(Add, NoLocation, [n1, n2]);
    var cap := SumFires(n1, plus, n2);
    assert Splice(parent, 0, 3, add) == Node(Group, NoLocation, [add]);
    assert ApplyFrom(NoOracle(), rules, parent, 0, 0, 1)
        == ApplyFrom(NoOracle(), rules, Splice(parent, 0, 3, add), 0, 1, 0);
  }

  /** The rule fires on the whole run and its effect builds the `add` node. */
  lemma SumFires(n1: Node, plus: Node, n2: Node) returns (cap: Capture)
    requires n1.kind == Number && plus.kind == Plus && n2.kind == Number
    ensures var parent := Node(Group, NoLocation, [n1, plus, n2]);
      && TryRules(NoOracle(), [Rule(SumPattern(), SumEffect)], 0, parent, 0) == Fired(0, 0, 3, cap)
      && SumEffect(cap) == Ok(Node(Add, NoLocation, [n1, n2]))
  {
    var o := NoOracle();
    var rules := [Rule(SumPattern(), SumEffect)];
    var parent := Node(Group, NoLocation, [n1, plus, n2]);
    SumCaptures(n1, plus, n2);
    var m := Match(o, SumPattern(), parent, 0, Empty);
    cap := m.cap;
    assert TryRules(o, rules, 0, parent, 0) == Fired(0, 0, 3, cap);
    assert Range(cap, "lhs") + Range(cap, "rhs") == [n1, n2];
  }

  /** Fuel bounds the depth of `top_down` as well as the firings: with no
      rules at all, a node with one child needs one unit of fuel, and with
      none the model gives `NoFuel` where the source finishes. */
  lemma DeepTreeNeedsFuel()
    ensures var t := Node("X", NoLocation, [Leaf("Y", NoLocation)]);
      && TopDown(NoOracle(), [], t, 0) == Err(NoFuel)
      && TopDown(NoOracle(), [], t, 1) == Ok((t, 0))
  {
    var t := Node("X", NoLocation, [Leaf("Y", NoLocation)]);
    assert Quiet(NoOracle(), [], Leaf("Y", NoLocation));
    assert Quiet(NoOracle(), [], t);
    var cs := t.children;
    assert cs[1..] == [] && HeightAll(cs[1..]) == 0;
    assert Height(cs[0]) == 0;
    assert HeightAll(cs) == 0;
    assert Height(t) == 1;
    TopDownQuiet(NoOracle(), [], t, 1);
    assert Apply(NoOracle(), [], t, 0) == Ok((t, 0));
  }
}
