/** Properties of the individual combinators of src/langkit/rewrite.h,
    stated about `Patterns.Match`. */
module PatternFacts {
  import opened Ast
  import opened Captures
  import opened Patterns

  predicate Primitive(p: Pattern) {
    p.Anything? || p.TokenMatch? || p.RegexMatch? || p.SymbolMatch? || p.LookupMatch?
  }

  /** The single-node matchers fail at the end sentinel and otherwise either
      fail without effect or advance by exactly one node. `Anything` and
      `TokenMatch` succeed exactly when a node (of the right type) is there. */
  lemma PrimitiveStepsOne(o: Oracle, p: Pattern, parent: Node, i: nat, cap: Capture)
    requires Primitive(p) && i <= |parent.children|
    ensures i == |parent.children| ==> !Match(o, p, parent, i, cap).ok
    ensures Match(o, p, parent, i, cap).ok ==> Match(o, p, parent, i, cap).pos == i + 1
    ensures p.Anything? ==> (Match(o, p, parent, i, cap).ok <==> i < |parent.children|)
    ensures p.TokenMatch? ==>
      (Match(o, p, parent, i, cap).ok <==> i < |parent.children| && parent.children[i].kind == p.kind)
    ensures Match(o, p, parent, i, cap).ok && !p.SymbolMatch? && !p.LookupMatch? ==>
      Match(o, p, parent, i, cap).cap == cap
  {
  }

  /** Symbol matchers move the lookup cursor to the node they found, and
      `LookupMatch` cannot succeed before some lookup has been made. */
  lemma LookupChains(o: Oracle, p: Pattern, parent: Node, i: nat, cap: Capture)
    requires (p.SymbolMatch? || p.LookupMatch?) && i <= |parent.children|
    ensures p.LookupMatch? && cap.lookup.None? ==> !Match(o, p, parent, i, cap).ok
    ensures Match(o, p, parent, i, cap).ok ==>
      var r := Match(o, p, parent, i, cap);
      && r.cap == cap.(lookup := r.cap.lookup)
      && (p.SymbolMatch? ==> r.cap.lookup == o.findFirst(parent.children[i], parent.children[i].loc)
                             && r.cap.lookup.value.kind == p.symbol)
      && (p.LookupMatch? ==> r.cap.lookup == o.at(cap.lookup.value, parent.children[i].loc, p.symbol))
  {
  }

  /** `Pred` and `NegPred` are pure lookahead, and `NegPred(q)` succeeds
      exactly when `Pred(q)` fails. */
  lemma PredicatesAreLookahead(o: Oracle, q: Pattern, parent: Node, i: nat, cap: Capture)
    requires Guarded(q) && i <= |parent.children|
    ensures Match(o, Pred(q), parent, i, cap).pos == i && Match(o, Pred(q), parent, i, cap).cap == cap
    ensures Match(o, NegPred(q), parent, i, cap).pos == i && Match(o, NegPred(q), parent, i, cap).cap == cap
    ensures Match(o, NegPred(q), parent, i, cap).ok <==> !Match(o, Pred(q), parent, i, cap).ok
    ensures Match(o, Pred(q), parent, i, cap).ok <==> Match(o, q, parent, i, Copy(cap)).ok
  {
  }

  /** `Not(q)` fails at the end; elsewhere it succeeds exactly when `q`
      fails at this position, then consumes one node and merges nothing. */
  lemma NotConsumesOne(o: Oracle, q: Pattern, parent: Node, i: nat, cap: Capture)
    requires Guarded(q) && i <= |parent.children|
    ensures i == |parent.children| ==> !Match(o, Not(q), parent, i, cap).ok
    ensures i < |parent.children| ==>
      (Match(o, Not(q), parent, i, cap).ok <==> !Match(o, q, parent, i, Copy(cap)).ok)
    ensures Match(o, Not(q), parent, i, cap).ok ==>
      Match(o, Not(q), parent, i, cap).pos == i + 1 && Match(o, Not(q), parent, i, cap).cap == cap
  {
  }

  /** `Opt` always succeeds, and when its body fails it changes nothing. */
  lemma OptAlwaysSucceeds(o: Oracle, q: Pattern, parent: Node, i: nat, cap: Capture)
    requires Guarded(q) && i <= |parent.children|
    ensures Match(o, Opt(q), parent, i, cap).ok
    ensures !Match(o, q, parent, i, Copy(cap)).ok ==>
      Match(o, Opt(q), parent, i, cap).pos == i && Match(o, Opt(q), parent, i, cap).cap == cap
  {
  }

  /** `Choice` is first-match-wins. When the first alternative fails, the
      result is exactly what the second alternative alone gives from the
      original position and captures: nothing of the failed attempt
      survives. This is where `Choice` relies on failed matches being pure,
      since it does not restore `it` itself. */
  lemma {:induction false} ChoiceFirstMatchWins(o: Oracle, a: Pattern, b: Pattern, parent: Node, i: nat, cap: Capture)
    requires Guarded(a) && Guarded(b) && i <= |parent.children|
    ensures var r1 := Match(o, a, parent, i, Copy(cap));
      r1.ok ==> Match(o, Choice(a, b), parent, i, cap) == MatchResult(true, r1.pos, Merge(cap, r1.cap))
    ensures var r1 := Match(o, a, parent, i, Copy(cap));
      var r2 := Match(o, b, parent, i, Copy(cap));
      !r1.ok ==> Match(o, Choice(a, b), parent, i, cap)
                 == if r2.ok then MatchResult(true, r2.pos, Merge(cap, r2.cap)) else MatchResult(false, i, cap)
  {
    var r1 := Match(o, a, parent, i, Copy(cap));
    assert !r1.ok ==> r1.pos == i;
  }

  /** `Seq` is atomic: it succeeds exactly when `first` succeeds and
      `second` succeeds from where `first` stopped, on `first`'s captures. */
  lemma SeqChains(o: Oracle, a: Pattern, b: Pattern, parent: Node, i: nat, cap: Capture)
    requires Guarded(a) && Guarded(b) && i <= |parent.children|
    ensures var r1 := Match(o, a, parent, i, Copy(cap));
      var r := Match(o, Seq(a, b), parent, i, cap);
      && (r.ok <==> r1.ok && Match(o, b, parent, r1.pos, r1.cap).ok)
      && (r.ok ==> r == MatchResult(true, Match(o, b, parent, r1.pos, r1.cap).pos,
                                  Merge(cap, Match(o, b, parent, r1.pos, r1.cap).cap)))
  {
  }

  /** On success `Cap(name, q)` maps `name` to exactly the nodes `q`
      consumed, overwriting an earlier entry; every other capture of the
      caller is kept as it was. */
  lemma CapRecordsRange(o: Oracle, name: Token, q: Pattern, parent: Node, i: nat, cap: Capture)
    requires Guarded(q) && i <= |parent.children|
    ensures var r := Match(o, Cap(name, q), parent, i, cap);
      r.ok ==> && name in r.cap.captures
               && r.cap.captures[name] == parent.children[i..r.pos]
               && |r.cap.captures[name]| == r.pos - i
               && (forall t :: t in cap.captures && t != name ==> r.cap.captures[t] == cap.captures[t])
    ensures Match(o, Cap(name, q), parent, i, cap).ok <==> Match(o, q, parent, i, Copy(cap)).ok
  {
  }

  /** `Rep` always succeeds and is greedy: it stops only at the end
      sentinel or where one more iteration of its body would fail. */
  lemma {:induction false} RepIsGreedy(o: Oracle, q: Pattern, parent: Node, i: nat, cap: Capture)
    requires Guarded(q) && Consumes(q) && i <= |parent.children|
    ensures var r := Match(o, Rep(q), parent, i, cap);
      r.ok && (r.pos == |parent.children| || !Match(o, q, parent, r.pos, r.cap).ok)
  {
    RepLoopIsGreedy(o, q, parent, i, cap);
  }

  lemma {:induction false} RepLoopIsGreedy(o: Oracle, q: Pattern, parent: Node, i: nat, cap: Capture)
    requires Guarded(q) && Consumes(q) && i <= |parent.children|
    ensures var r := RepLoop(o, q, parent, i, cap);
      r.pos == |parent.children| || !Match(o, q, parent, r.pos, r.cap).ok
    decreases |parent.children| - i
  {
    if i < |parent.children| {
      var r := Match(o, q, parent, i, cap);
      if r.ok {
        RepLoopIsGreedy(o, q, parent, r.pos, r.cap);
      }
    }
  }
}
