/** The rewrite pass scheduler (`Pass` in src/langkit/rewrite.h): ordered
    pattern/effect rules applied to every node's children, top-down or
    bottom-up, once (`run`) or to a fixpoint (`repeat`).

    The source neither bounds the number of times a rule may fire at one
    position nor the depth of the trees effects build, so `apply`, `run`
    and `repeat` need not terminate. The model takes a `fuel` bound: at most
    `fuel` rule firings per application and at most `fuel` levels of
    top-down descent, and `rounds` runs for `repeat`; exhausting it yields
    `Err(NoFuel)`. Because the fuel also bounds the depth of `top_down`,
    `Err(NoFuel)` can stand for a run the source completes on a deep tree;
    `TopDownQuiet` shows that fuel of at least the tree's height suffices
    when no rule fires. */
module Passes {
  import opened Ast
  import opened Captures
  import opened Patterns

  /** An effect builds the replacement from the completed captures; it may
      fail, as `Capture::operator()(Binding)` does on a multi-node range. */
  datatype Rule = Rule(pattern: Pattern, effect: Capture -> Result<Node>)

  /** `dir::bottomup` and `dir::topdown`. */
  datatype Direction = BottomUpDir | TopDownDir

  datatype Pass = Pass(rules: seq<Rule>, direction: Direction)

  predicate GuardedRules(rules: seq<Rule>) {
    forall k | 0 <= k < |rules| :: Guarded(rules[k].pattern)
  }

  /** `Pass(rules)`: a top-down pass. */
  function NewPass(rules: seq<Rule>): (p: Pass)
    ensures p.rules == rules && p.direction == TopDownDir
  {
    Pass(rules, TopDownDir)
  }

  /** `pass(dir)`: change the direction, keep the rules. */
  function WithDirection(p: Pass, d: Direction): (r: Pass)
    ensures r.rules == p.rules && r.direction == d
  {
    p.(direction := d)
  }

  /** `pass({rules})`: append rules after the existing ones, so they have
      lower priority. */
  function AddRules(p: Pass, more: seq<Rule>): (r: Pass)
    ensures r.direction == p.direction && |r.rules| == |p.rules| + |more|
    ensures r.rules[..|p.rules|] == p.rules && r.rules[|p.rules|..] == more
  {
    p.(rules := p.rules + more)
  }

  /** What trying the rule list at one position finds. */
  datatype Attempt =
    | NoRule(pos: nat)
    | Fired(rule: nat, start: nat, stop: nat, cap: Capture)

  /** The inner `for (auto& rule : rules)` loop of `apply`: each rule is
      matched from a cleared capture at wherever `it` stands, and the first
      success wins. */
  function TryRules(o: Oracle, rules: seq<Rule>, k: nat, parent: Node, i: nat): (r: Attempt)
    requires GuardedRules(rules) && k <= |rules| && i <= |parent.children|
    ensures r.NoRule? ==> r.pos == i
    ensures r.NoRule? <==> forall j | k <= j < |rules| :: !Match(o, rules[j].pattern, parent, i, Empty).ok
    ensures r.Fired? ==>
      && k <= r.rule < |rules| && r.start == i
      && (forall j | k <= j < r.rule :: !Match(o, rules[j].pattern, parent, i, Empty).ok)
      && Match(o, rules[r.rule].pattern, parent, i, Empty) == MatchResult(true, r.stop, r.cap)
    decreases |rules| - k
  {
    if k == |rules| then NoRule(i)
    else
      var m := Match(o, rules[k].pattern, parent, i, Empty);
      if m.ok then Fired(k, i, m.pos, m.cap)
      else TryRules(o, rules, k + 1, parent, m.pos)
  }

  /** Erase `children[start..stop]` and insert `replacement` in its place. */
  function Splice(parent: Node, start: nat, stop: nat, replacement: Node): (r: Node)
    requires start <= stop <= |parent.children|
    ensures r.kind == parent.kind && r.loc == parent.loc
    ensures |r.children| == |parent.children| - (stop - start) + 1
    ensures r.children[..start] == parent.children[..start]
    ensures r.children[start] == replacement
    ensures r.children[start + 1..] == parent.children[stop..]
  {
    parent.(children := parent.children[..start] + [replacement] + parent.children[stop..])
  }

  /** Rules added later have lower priority: wherever one of the original
      rules fires, the extended list fires the same rule with the same
      result. */
  lemma {:induction false} AddedRulesRankLower(o: Oracle, rules: seq<Rule>, more: seq<Rule>, k: nat, parent: Node, i: nat)
    requires GuardedRules(rules) && GuardedRules(more) && k <= |rules| && i <= |parent.children|
    ensures GuardedRules(rules + more)
    ensures TryRules(o, rules, k, parent, i).Fired? ==>
      TryRules(o, rules + more, k, parent, i) == TryRules(o, rules, k, parent, i)
    decreases |rules| - k
  {
    assert forall j | 0 <= j < |rules| :: (rules + more)[j] == rules[j];
    assert forall j | |rules| <= j < |rules + more| :: (rules + more)[j] == more[j - |rules|];
    if k < |rules| && !Match(o, rules[k].pattern, parent, i, Empty).ok {
      AddedRulesRankLower(o, rules, more, k + 1, parent, i);
    }
  }

  /** The scanning loop of `apply` from position `i`, with `changes`
      replacements made so far. */
  function ApplyFrom(o: Oracle, rules: seq<Rule>, parent: Node, i: nat, changes: nat, fuel: nat): (r: Result<(Node, nat)>)
    requires GuardedRules(rules) && i <= |parent.children|
    ensures r.Ok? ==> r.value.0.kind == parent.kind && r.value.0.loc == parent.loc
    ensures r.Ok? ==> r.value.1 >= changes
    ensures r.Ok? && r.value.1 == changes ==> r.value.0 == parent
    ensures r.Ok? && |parent.children| > 0 ==> |r.value.0.children| > 0
    decreases fuel, |parent.children| - i
  {
    if i == |parent.children| then Ok((parent, changes))
    else
      match TryRules(o, rules, 0, parent, i)
      case NoRule(pos) => ApplyFrom(o, rules, parent, pos + 1, changes, fuel)
      case Fired(k, start, stop, cap) =>
        match rules[k].effect(cap)
        case Err(e) => Err(e)
        case Ok(replacement) =>
          if fuel == 0 then Err(NoFuel)
          else ApplyFrom(o, rules, Splice(parent, start, stop, replacement), start, changes + 1, fuel - 1)
  }

  /** `apply(node)`: rewrite the children of `node`, counting replacements. */
  function Apply(o: Oracle, rules: seq<Rule>, node: Node, fuel: nat): (r: Result<(Node, nat)>)
    requires GuardedRules(rules)
    ensures r.Ok? ==> r.value.0.kind == node.kind && r.value.0.loc == node.loc
    ensures r.Ok? && r.value.1 == 0 ==> r.value.0 == node
    ensures (forall i | 0 <= i < |node.children| :: TryRules(o, rules, 0, node, i).NoRule?) ==> r == Ok((node, 0))
  {
    ApplyQuiet(o, rules, node, 0, fuel);
    ApplyFrom(o, rules, node, 0, 0, fuel)
  }

  /** Where no rule matches from position `i` on, the scan makes no change
      and needs no fuel. */
  lemma {:induction false} ApplyQuiet(o: Oracle, rules: seq<Rule>, node: Node, i: nat, fuel: nat)
    requires GuardedRules(rules) && i <= |node.children|
    ensures (forall j | i <= j < |node.children| :: TryRules(o, rules, 0, node, j).NoRule?) ==>
      ApplyFrom(o, rules, node, i, 0, fuel) == Ok((node, 0))
    decreases |node.children| - i
  {
    if i < |node.children| {
      ApplyQuiet(o, rules, node, i + 1, fuel);
    }
  }

  /** One iteration of the scanning loop: when no rule matches, scanning
      moves one sibling on; when rule `k` fires, the matched run
      `[start, stop)` is replaced by the effect's node, which becomes a
      child of the scanned node, the count grows by exactly one, and
      scanning resumes at the replacement. */
  lemma ApplyStep(o: Oracle, rules: seq<Rule>, parent: Node, i: nat, changes: nat, fuel: nat)
    requires GuardedRules(rules) && i < |parent.children|
    ensures TryRules(o, rules, 0, parent, i).NoRule? ==>
      ApplyFrom(o, rules, parent, i, changes, fuel) == ApplyFrom(o, rules, parent, i + 1, changes, fuel)
    ensures TryRules(o, rules, 0, parent, i).Fired? ==>
      var a := TryRules(o, rules, 0, parent, i);
      var e := rules[a.rule].effect(a.cap);
      && (e.Err? ==> ApplyFrom(o, rules, parent, i, changes, fuel) == Err(e.error))
      && (e.Ok? && fuel > 0 ==>
            var next := parent.(children := parent.children[..i] + [e.value] + parent.children[a.stop..]);
            && next.children[i] == e.value
            && ApplyFrom(o, rules, parent, i, changes, fuel) == ApplyFrom(o, rules, next, i, changes + 1, fuel - 1))
  {
  }

  /** `top_down`: apply to the node's children, then descend into each of
      the resulting children. */
  function TopDown(o: Oracle, rules: seq<Rule>, node: Node, fuel: nat): (r: Result<(Node, nat)>)
    requires GuardedRules(rules)
    ensures r.Ok? ==> r.value.0.kind == node.kind && r.value.0.loc == node.loc
    ensures r.Ok? && |node.children| > 0 ==> |r.value.0.children| > 0
    ensures r.Ok? && r.value.1 == 0 ==> r.value.0 == node
    decreases fuel, 0, 0
  {
    match Apply(o, rules, node, fuel)
    case Err(e) => Err(e)
    case Ok((n1, c1)) =>
      if |n1.children| == 0 then Ok((n1, c1))
      else if fuel == 0 then Err(NoFuel)
      else
        match TopDownAll(o, rules, n1.children, fuel - 1)
        case Err(e) => Err(e)
        case Ok((cs, c2)) => Ok((n1.(children := cs), c1 + c2))
  }

  function TopDownAll(o: Oracle, rules: seq<Rule>, cs: seq<Node>, fuel: nat): (r: Result<(seq<Node>, nat)>)
    requires GuardedRules(rules)
    ensures r.Ok? ==> |r.value.0| == |cs|
    ensures r.Ok? && r.value.1 == 0 ==> r.value.0 == cs
    decreases fuel, 1, |cs|
  {
    if |cs| == 0 then Ok(([], 0))
    else
      match TopDown(o, rules, cs[0], fuel)
      case Err(e) => Err(e)
      case Ok((n, c1)) =>
        match TopDownAll(o, rules, cs[1..], fuel)
        case Err(e) => Err(e)
        case Ok((rest, c2)) => Ok(([n] + rest, c1 + c2))
  }

  /** No rule matches at any child position of `node`, nor anywhere below. */
  predicate Quiet(o: Oracle, rules: seq<Rule>, node: Node)
    requires GuardedRules(rules)
    decreases node
  {
    && (forall i | 0 <= i < |node.children| :: TryRules(o, rules, 0, node, i).NoRule?)
    && (forall c | c in node.children :: Quiet(o, rules, c))
  }

  /** The number of levels below a node. */
  function Height(n: Node): nat
    decreases n, 1
  {
    if |n.children| == 0 then 0 else 1 + HeightAll(n.children)
  }

  function HeightAll(cs: seq<Node>): nat
    decreases cs, 0
  {
    if |cs| == 0 then 0
    else
      var h := Height(cs[0]);
      var rest := HeightAll(cs[1..]);
      if h < rest then rest else h
  }

  /** Fuel of at least the tree's height is enough for `top_down` when no
      rule fires: it returns the tree unchanged, with no change counted. */
  lemma {:induction false} TopDownQuiet(o: Oracle, rules: seq<Rule>, node: Node, fuel: nat)
    requires GuardedRules(rules) && Quiet(o, rules, node) && fuel >= Height(node)
    ensures TopDown(o, rules, node, fuel) == Ok((node, 0))
    decreases node, 1
  {
    assert Apply(o, rules, node, fuel) == Ok((node, 0));
    if |node.children| > 0 {
      TopDownAllQuiet(o, rules, node.children, fuel - 1);
    }
  }

  lemma {:induction false} TopDownAllQuiet(o: Oracle, rules: seq<Rule>, cs: seq<Node>, fuel: nat)
    requires GuardedRules(rules) && (forall c | c in cs :: Quiet(o, rules, c)) && fuel >= HeightAll(cs)
    ensures TopDownAll(o, rules, cs, fuel) == Ok((cs, 0))
    decreases cs, 0
  {
    if |cs| > 0 {
      TopDownQuiet(o, rules, cs[0], fuel);
      TopDownAllQuiet(o, rules, cs[1..], fuel);
      assert [cs[0]] + cs[1..] == cs;
    }
  }

  /** `bottom_up`: rewrite every child subtree first, then apply to the
      node's (new) children. */
  function BottomUp(o: Oracle, rules: seq<Rule>, node: Node, fuel: nat): (r: Result<(Node, nat)>)
    requires GuardedRules(rules)
    ensures r.Ok? ==> r.value.0.kind == node.kind && r.value.0.loc == node.loc
    ensures r.Ok? && |node.children| > 0 ==> |r.value.0.children| > 0
    ensures r.Ok? && r.value.1 == 0 ==> r.value.0 == node
    decreases node, 1
  {
    match BottomUpAll(o, rules, node.children, fuel)
    case Err(e) => Err(e)
    case Ok((cs, c1)) =>
      match Apply(o, rules, node.(children := cs), fuel)
      case Err(e) => Err(e)
      case Ok((n2, c2)) => Ok((n2, c1 + c2))
  }

  function BottomUpAll(o: Oracle, rules: seq<Rule>, cs: seq<Node>, fuel: nat): (r: Result<(seq<Node>, nat)>)
    requires GuardedRules(rules)
    ensures r.Ok? ==> |r.value.0| == |cs|
    ensures r.Ok? && r.value.1 == 0 ==> r.value.0 == cs
    decreases cs, 0
  {
    if |cs| == 0 then Ok(([], 0))
    else
      match BottomUp(o, rules, cs[0], fuel)
      case Err(e) => Err(e)
      case Ok((n, c1)) =>
        match BottomUpAll(o, rules, cs[1..], fuel)
        case Err(e) => Err(e)
        case Ok((rest, c2)) => Ok(([n] + rest, c1 + c2))
  }

  /** `run`: traverse under a synthetic `Group` root, so that the given node
      itself can be replaced, and return the root's first child. */
  function Run(o: Oracle, pass: Pass, node: Node, fuel: nat): (r: Result<(Node, nat)>)
    requires GuardedRules(pass.rules)
    ensures r.Ok? && r.value.1 == 0 ==> r.value.0 == node
  {
    var top := Node(Group, NoLocation, [node]);
    var t := if pass.direction == BottomUpDir then BottomUp(o, pass.rules, top, fuel)
             else TopDown(o, pass.rules, top, fuel);
    match t
    case Err(e) => Err(e)
    case Ok((top', changes)) => Ok((top'.children[0], changes))
  }

  /** `repeat`: run until a run reports no change. The tree it returns is
      a fixpoint: running the pass once more makes no replacement and
      returns the same tree; a tree that already is one is returned as is. */
  function Repeat(o: Oracle, pass: Pass, node: Node, fuel: nat, rounds: nat): (r: Result<Node>)
    requires GuardedRules(pass.rules)
    ensures r.Ok? ==> Run(o, pass, r.value, fuel) == Ok((r.value, 0))
    ensures Run(o, pass, node, fuel) == Ok((node, 0)) ==> r == Ok(node)
    decreases rounds
  {
    match Run(o, pass, node, fuel)
    case Err(e) => Err(e)
    case Ok((n, changes)) =>
      if changes == 0 then Ok(n)
      else if rounds == 0 then Err(NoFuel)
      else Repeat(o, pass, n, fuel, rounds - 1)
  }

  /** Repeating a pass on what `repeat` returned gives it back unchanged. */
  lemma RepeatIdempotent(o: Oracle, pass: Pass, node: Node, fuel: nat, rounds: nat, more: nat)
    requires GuardedRules(pass.rules)
    ensures Repeat(o, pass, node, fuel, rounds).Ok? ==>
      Repeat(o, pass, Repeat(o, pass, node, fuel, rounds).value, fuel, more) == Repeat(o, pass, node, fuel, rounds)
  {
  }
}
