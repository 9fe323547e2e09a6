/** The tree-pattern combinators of src/langkit/rewrite.h (`PatternDef` and
    its subclasses) as one closed datatype and one recursive matcher.

    A C++ matcher takes the sibling iterator `it` and the capture state by
    reference and mutates both, also when it then reports failure. `Match`
    returns all three results (`ok`, the final position, the final capture)
    so that "a failed match changes nothing" is a theorem about the model and
    not something built into it. */
module Patterns {
  import opened Ast
  import opened Captures

  datatype Pattern =
    | Anything
    | TokenMatch(kind: Token)
    | RegexMatch(kind: Token, regex: string)
    | SymbolMatch(kind: Token, symbol: Token)
    | LookupMatch(kind: Token, symbol: Token)
    | Inside(kind: Token)
    | First
    | Last
    | Opt(p: Pattern)
    | Rep(p: Pattern)
    | Not(p: Pattern)
    | Pred(p: Pattern)
    | NegPred(p: Pattern)
    | Seq(first: Pattern, second: Pattern)
    | Choice(first: Pattern, second: Pattern)
    | Children(head: Pattern, children: Pattern)
    | Cap(name: Token, p: Pattern)

  /** What the matchers ask of code outside this model: whether a node's
      source text fully matches a regular expression (`std::regex_match` on
      `location.view()`), `find_first` of a node's own location in its
      enclosing scopes, and `at(location, symbol_type)` on a scope node. */
  datatype Oracle = Oracle(
    fullMatch: (string, Location) -> bool,
    findFirst: (Node, Location) -> Option<Node>,
    at: (Node, Location, Token) -> Option<Node>)

  datatype MatchResult = MatchResult(ok: bool, pos: nat, cap: Capture)

  /** Patterns that consume at least one sibling whenever they succeed. */
  predicate Consumes(p: Pattern) {
    match p
    case Anything => true
    case TokenMatch(_) => true
    case RegexMatch(_, _) => true
    case SymbolMatch(_, _) => true
    case LookupMatch(_, _) => true
    case Not(_) => true
    case Seq(a, b) => Consumes(a) || Consumes(b)
    case Choice(a, b) => Consumes(a) && Consumes(b)
    case Children(h, _) => Consumes(h)
    case Cap(_, q) => Consumes(q)
    case _ => false
  }

  /** A sufficient condition for the source to run a pattern to completion
      without undefined behaviour: `Rep` loops forever on a body that
      succeeds without consuming, and `Children` dereferences the first
      sibling its head matched, which must exist. Some patterns it excludes
      are safe, such as `Children(First, q)`, whose head fails at the end,
      or `Rep(Last)`, whose body succeeds only at the end, where `Rep` never
      runs it. */
  predicate Guarded(p: Pattern) {
    match p
    case Opt(q) => Guarded(q)
    case Rep(q) => Consumes(q) && Guarded(q)
    case Not(q) => Guarded(q)
    case Pred(q) => Guarded(q)
    case NegPred(q) => Guarded(q)
    case Seq(a, b) => Guarded(a) && Guarded(b)
    case Choice(a, b) => Guarded(a) && Guarded(b)
    case Children(h, c) => Consumes(h) && Guarded(h) && Guarded(c)
    case Cap(_, q) => Guarded(q)
    case _ => true
  }

  /** The postcondition every matcher keeps: the position stays within the
      siblings and never moves back; a failure leaves position and captures
      exactly as they were; a consuming pattern advances on success;
      matching never records bindings or defaults; and existing captures
      are never dropped. */
  ghost predicate Keeps(p: Pattern, parent: Node, i: nat, cap: Capture, r: MatchResult) {
    && i <= r.pos <= |parent.children|
    && (!r.ok ==> r.pos == i && r.cap == cap)
    && (r.ok && Consumes(p) ==> r.pos > i)
    && r.cap.bindings == cap.bindings && r.cap.defaults == cap.defaults
    && cap.captures.Keys <= r.cap.captures.Keys
  }

  /** Merging back a speculative copy keeps the caller's bindings, defaults
      and capture names. */
  lemma MergeBack(cap: Capture, d: Capture)
    requires d.bindings == map[] && d.defaults == map[]
    ensures Merge(cap, d).bindings == cap.bindings && Merge(cap, d).defaults == cap.defaults
    ensures cap.captures.Keys <= Merge(cap, d).captures.Keys
  {
    assert Merge(cap, d).bindings == cap.bindings;
    assert Merge(cap, d).defaults == cap.defaults;
  }

  /** `match(it, end, captures)` where the siblings are `parent.children`,
      `it` is index `i` and the end sentinel is `|parent.children|`. */
  function Match(o: Oracle, p: Pattern, parent: Node, i: nat, cap: Capture): (r: MatchResult)
    requires Guarded(p) && i <= |parent.children|
    ensures i <= r.pos <= |parent.children|
    ensures !r.ok ==> r.pos == i && r.cap == cap
    ensures r.ok && Consumes(p) ==> r.pos > i
    ensures r.cap.bindings == cap.bindings && r.cap.defaults == cap.defaults
    ensures cap.captures.Keys <= r.cap.captures.Keys
    decreases p, 1, 0
  {
    var nodes := parent.children;
    var fail := MatchResult(false, i, cap);
    match p
    case Anything =>
      if i == |nodes| then fail else MatchResult(true, i + 1, cap)

    case TokenMatch(t) =>
      if i == |nodes| || nodes[i].kind != t then fail else MatchResult(true, i + 1, cap)

    case RegexMatch(t, re) =>
      if i == |nodes| || nodes[i].kind != t then fail
      else if !o.fullMatch(re, nodes[i].loc) then fail
      else MatchResult(true, i + 1, cap)

    case SymbolMatch(t, symbol) =>
      if i == |nodes| || nodes[i].kind != t then fail
      else
        var find := o.findFirst(nodes[i], nodes[i].loc);
        if find.None? || find.value.kind != symbol then fail
        else MatchResult(true, i + 1, cap.(lookup := find))

    case LookupMatch(t, symbol) =>
      if i == |nodes| || nodes[i].kind != t then fail
      else if cap.lookup.None? then fail
      else
        var find := o.at(cap.lookup.value, nodes[i].loc, symbol);
        if find.None? then fail
        else MatchResult(true, i + 1, cap.(lookup := find))

    case Inside(t) =>
      if i == |nodes| then fail else MatchResult(parent.kind == t, i, cap)

    case First =>
      if i == |nodes| then fail else MatchResult(i == 0, i, cap)

    case Last =>
      MatchResult(i == |nodes|, i, cap)

    case Rep(q) =>
      RepLoop(o, q, parent, i, cap)

    case Opt(_) => MatchOpt(o, p, parent, i, cap)
    case Not(_) => MatchNot(o, p, parent, i, cap)
    case Pred(_) => MatchPred(o, p, parent, i, cap)
    case NegPred(_) => MatchPred(o, p, parent, i, cap)
    case Seq(_, _) => MatchSeq(o, p, parent, i, cap)
    case Choice(_, _) => MatchChoice(o, p, parent, i, cap)
    case Children(_, _) => MatchChildren(o, p, parent, i, cap)
    case Cap(_, _) => MatchCap(o, p, parent, i, cap)
  }

  /** `Opt::match`: try the body on a copy, merge it back on success, and
      succeed either way. */
  function MatchOpt(o: Oracle, p: Pattern, parent: Node, i: nat, cap: Capture): (r: MatchResult)
    requires p.Opt? && Guarded(p) && i <= |parent.children|
    ensures Keeps(p, parent, i, cap, r)
    decreases p, 0, 0
  {
    var r := Match(o, p.p, parent, i, Copy(cap));
    if r.ok then MergeBack(cap, r.cap); MatchResult(true, r.pos, Merge(cap, r.cap))
    else MatchResult(true, r.pos, cap)
  }

  /** `Not::match`: fail at the end; otherwise succeed by one node exactly
      when the body fails here. */
  function MatchNot(o: Oracle, p: Pattern, parent: Node, i: nat, cap: Capture): (r: MatchResult)
    requires p.Not? && Guarded(p) && i <= |parent.children|
    ensures Keeps(p, parent, i, cap, r)
    decreases p, 0, 0
  {
    if i == |parent.children| then MatchResult(false, i, cap)
    else
      var r := Match(o, p.p, parent, i, Copy(cap));
      if r.ok then MatchResult(false, i, cap) else MatchResult(true, i + 1, cap)
  }

  /** `Pred::match` and `NegPred::match`: run the body on a copy, restore
      `it`, and report the body's verdict (negated for `NegPred`). */
  function MatchPred(o: Oracle, p: Pattern, parent: Node, i: nat, cap: Capture): (r: MatchResult)
    requires (p.Pred? || p.NegPred?) && Guarded(p) && i <= |parent.children|
    ensures Keeps(p, parent, i, cap, r)
    decreases p, 0, 0
  {
    var r := Match(o, p.p, parent, i, Copy(cap));
    MatchResult(if p.Pred? then r.ok else !r.ok, i, cap)
  }

  /** `Seq::match`: both halves run against one speculative copy; on the
      second half's failure `it` is restored, on the first half's it is not. */
  function MatchSeq(o: Oracle, p: Pattern, parent: Node, i: nat, cap: Capture): (r: MatchResult)
    requires p.Seq? && Guarded(p) && i <= |parent.children|
    ensures Keeps(p, parent, i, cap, r)
    decreases p, 0, 0
  {
    var r1 := Match(o, p.first, parent, i, Copy(cap));
    if !r1.ok then MatchResult(false, r1.pos, cap)
    else
      var r2 := Match(o, p.second, parent, r1.pos, r1.cap);
      if !r2.ok then MatchResult(false, i, cap)
      else MergeBack(cap, r2.cap); MatchResult(true, r2.pos, Merge(cap, r2.cap))
  }

  /** `Choice::match`: first match wins, each alternative on its own copy. */
  function MatchChoice(o: Oracle, p: Pattern, parent: Node, i: nat, cap: Capture): (r: MatchResult)
    requires p.Choice? && Guarded(p) && i <= |parent.children|
    ensures Keeps(p, parent, i, cap, r)
    decreases p, 0, 0
  {
    var r1 := Match(o, p.first, parent, i, Copy(cap));
    if r1.ok then MergeBack(cap, r1.cap); MatchResult(true, r1.pos, Merge(cap, r1.cap))
    else
      // The second alternative starts wherever the first one left `it`.
      var r2 := Match(o, p.second, parent, r1.pos, Copy(cap));
      if r2.ok then MergeBack(cap, r2.cap); MatchResult(true, r2.pos, Merge(cap, r2.cap))
      else MatchResult(false, r2.pos, cap)
  }

  /** `Children::match`: the head runs on a copy; the child pattern then runs
      on that same copy over the children of the first node the head
      consumed. It need not reach the end of those children. */
  function MatchChildren(o: Oracle, p: Pattern, parent: Node, i: nat, cap: Capture): (r: MatchResult)
    requires p.Children? && Guarded(p) && i <= |parent.children|
    ensures Keeps(p, parent, i, cap, r)
    decreases p, 0, 0
  {
    var r1 := Match(o, p.head, parent, i, Copy(cap));
    if !r1.ok then MatchResult(false, r1.pos, cap)
    else
      var r2 := Match(o, p.children, parent.children[i], 0, r1.cap);
      if !r2.ok then MatchResult(false, i, cap)
      else MergeBack(cap, r2.cap); MatchResult(true, r1.pos, Merge(cap, r2.cap))
  }

  /** `Cap::match`: on success merge the body's captures, then record the
      consumed range under the name, replacing any earlier entry. */
  function MatchCap(o: Oracle, p: Pattern, parent: Node, i: nat, cap: Capture): (r: MatchResult)
    requires p.Cap? && Guarded(p) && i <= |parent.children|
    ensures Keeps(p, parent, i, cap, r)
    decreases p, 0, 0
  {
    var r := Match(o, p.p, parent, i, Copy(cap));
    if !r.ok then MatchResult(false, r.pos, cap)
    else MergeBack(cap, r.cap); MatchResult(true, r.pos, Set(Merge(cap, r.cap), p.name, parent.children[i..r.pos]))
  }

  /** The loop of `Rep::match`: keep matching the body against the caller's
      own capture state until the end sentinel or a failure. */
  function RepLoop(o: Oracle, q: Pattern, parent: Node, i: nat, cap: Capture): (r: MatchResult)
    requires Guarded(q) && Consumes(q) && i <= |parent.children|
    ensures r.ok && i <= r.pos <= |parent.children|
    ensures r.cap.bindings == cap.bindings && r.cap.defaults == cap.defaults
    ensures cap.captures.Keys <= r.cap.captures.Keys
    decreases q, 2, |parent.children| - i
  {
    if i == |parent.children| then MatchResult(true, i, cap)
    else
      var r := Match(o, q, parent, i, cap);
      if !r.ok then MatchResult(true, r.pos, r.cap)
      else RepLoop(o, q, parent, r.pos, r.cap)
  }
}
