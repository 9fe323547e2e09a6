/** The rule/mode scan loop of `Parse::parse_file` (src/langkit/parse.h).

    A lexer rule pairs a regular expression with an effect on the cursor.
    Regular-expression search is a parameter: `Matcher(regex, rest)` is the
    leftmost match of the rule's expression in the rest of the text, as an
    offset and a length, or `None`. The source prefixes every expression
    with `^`, but in an alternation `^` binds only to the first
    alternative, so a match can start after the current position; the
    characters before it are then skipped. Effects are written as programs
    over the cursor operations, with branches on `in` and `previous`. */
module Scanner {
  import opened Ast
  import opened TreeBuilder

  datatype Cond = InCond(t: Token) | PreviousCond(t: Token)

  datatype Action =
    | AddAct(t: Token)
    | PushAct(t: Token)
    | PopAct(t: Token)
    | SeqAct(t: Token, skip: seq<Token>)
    | TermAct(ends: seq<Token>)
    | ExtendAct
    | InvalidAct
    | ModeAct(next: string)
    | When(cond: Cond, yes: seq<Action>, no: seq<Action>)

  datatype LexRule = LexRule(regex: string, effect: seq<Action>)

  /** Mode name to its rules, in the order they were registered. */
  type Modes = map<string, seq<LexRule>>

  /** Where a search found a match: `position()` and `length()`. */
  datatype Hit = Hit(offset: nat, len: nat)

  type Matcher = (string, string) -> Option<Hit>

  /** Every match ends past the current position and inside the text. A
      match that is empty and starts where scanning stands makes the
      source's loop spin forever at one position. */
  ghost predicate Advances(matcher: Matcher) {
    forall regex: string, rest: string :: matcher(regex, rest).Some? ==>
      0 < matcher(regex, rest).value.offset + matcher(regex, rest).value.len <= |rest|
  }

  /** The search of `^(?:regex)`: only a match at the current position
      counts. The leftmost match starts there exactly when any match does,
      so this keeps a hit at offset zero and drops every other. */
  function Anchored(matcher: Matcher): (r: Matcher)
    ensures forall regex, rest :: r(regex, rest).Some? ==>
      matcher(regex, rest) == r(regex, rest) && r(regex, rest).value.offset == 0
    ensures forall regex, rest :: r(regex, rest).None? ==>
      matcher(regex, rest).None? || matcher(regex, rest).value.offset > 0
  {
    (regex, rest) =>
      var h := matcher(regex, rest);
      if h.Some? && h.value.offset == 0 then h else None
  }

  lemma AnchoredAdvances(matcher: Matcher)
    requires Advances(matcher)
    ensures Advances(Anchored(matcher))
    ensures forall regex: string, rest: string :: Anchored(matcher)(regex, rest).Some? ==>
      Anchored(matcher)(regex, rest).value.offset == 0 && Anchored(matcher)(regex, rest).value.len > 0
  {
  }

  function Holds(c: Cond, m: Make): bool {
    match c
    case InCond(t) => In(m, t)
    case PreviousCond(t) => Previous(m, t)
  }

  /** Run one action of an effect. Every action keeps the current match
      location and keeps the cursor inside the tree grown from the root. */
  function Perform(a: Action, m: Make): (r: Result<Make>)
    ensures r.Ok? ==> r.value.location == m.location
    ensures r.Ok? && Rooted(m) ==> Rooted(r.value)
    ensures !a.ModeAct? && !a.When? && r.Ok? ==> r.value.mode == m.mode
    decreases a
  {
    match a
    case AddAct(t) => Ok(Add(m, t))
    case PushAct(t) => Ok(Push(m, t))
    case PopAct(t) => Pop(m, t)
    case SeqAct(t, skip) => SeqOp(m, t, skip)
    case TermAct(ends) => Term(m, ends)
    case ExtendAct => Ok(ExtendNode(m))
    case InvalidAct => Ok(MarkInvalid(m))
    case ModeAct(next) => Ok(SetMode(m, next))
    case When(c, yes, no) => if Holds(c, m) then PerformAll(yes, m) else PerformAll(no, m)
  }

  /** Run an effect's actions in order, stopping at the first fault. */
  function PerformAll(acts: seq<Action>, m: Make): (r: Result<Make>)
    ensures |acts| == 0 ==> r == Ok(m)
    ensures r.Ok? ==> r.value.location == m.location
    ensures r.Ok? && Rooted(m) ==> Rooted(r.value)
    decreases acts
  {
    if |acts| == 0 then Ok(m)
    else
      match Perform(acts[0], m)
      case Err(e) => Err(e)
      case Ok(m1) => PerformAll(acts[1..], m1)
  }

  /** The rule loop at one position: the first rule from `k` on whose
      expression matches, with where it matched. */
  function FirstRule(matcher: Matcher, rules: seq<LexRule>, rest: string, k: nat): (r: Option<(nat, Hit)>)
    requires k <= |rules|
    ensures r.None? <==> forall j | k <= j < |rules| :: matcher(rules[j].regex, rest).None?
    ensures r.Some? ==>
      && k <= r.value.0 < |rules|
      && matcher(rules[r.value.0].regex, rest) == Some(r.value.1)
      && forall j | k <= j < r.value.0 :: matcher(rules[j].regex, rest).None?
    decreases |rules| - k
  {
    if k == |rules| then None
    else
      match matcher(rules[k].regex, rest)
      case Some(h) => Some((k, h))
      case None => FirstRule(matcher, rules, rest, k + 1)
  }

  /** The scanner between iterations: the cursor, the active mode's rules
      and the offset reached in the text. */
  datatype Scan = Scan(make: Make, rules: seq<LexRule>, pos: nat)

  /** After a rule's effect, apply a pending mode switch and clear it. */
  function SwitchMode(modes: Modes, m: Make, rules: seq<LexRule>): (r: Result<(Make, seq<LexRule>)>)
    ensures m.mode.None? ==> r == Ok((m, rules))
    ensures m.mode.Some? ==>
      if m.mode.value in modes then r == Ok((m.(mode := None), modes[m.mode.value]))
      else r.Err?
  {
    match m.mode
    case None => Ok((m, rules))
    case Some(next) =>
      if next in modes then Ok((m.(mode := None), modes[next]))
      else Err(Fault("unknown mode: " + next))
  }

  /** One iteration of the scan loop. A rule that matched at `offset` past
      the current position locates its effect there, and the characters
      before the match are passed over without an `Invalid` node. */
  function Step(matcher: Matcher, modes: Modes, text: string, source: nat, s: Scan): (r: Result<Scan>)
    requires Advances(matcher) && s.pos < |text|
    ensures r.Ok? ==> s.pos < r.value.pos <= |text|
    ensures r.Ok? && Rooted(s.make) ==> Rooted(r.value.make)
    ensures FirstRule(matcher, s.rules, text[s.pos..], 0).None? ==>
      r == Ok(Scan(MarkInvalid(s.make), s.rules, s.pos + 1))
    ensures FirstRule(matcher, s.rules, text[s.pos..], 0).Some? ==>
      var (k, h) := FirstRule(matcher, s.rules, text[s.pos..], 0).value;
      var e := PerformAll(s.rules[k].effect, s.make.(location := Location(source, s.pos + h.offset, h.len)));
      && (e.Err? ==> r.Err?)
      && (e.Ok? ==> r.Ok? == (e.value.mode.None? || e.value.mode.value in modes))
      && (r.Ok? ==> r.value.pos == s.pos + h.offset + h.len && r.value.make == e.value.(mode := None))
      && (r.Ok? && e.value.mode.None? ==> r.value.rules == s.rules)
      && (r.Ok? && e.value.mode.Some? ==> r.value.rules == modes[e.value.mode.value])
  {
    match FirstRule(matcher, s.rules, text[s.pos..], 0)
    case None => Ok(Scan(MarkInvalid(s.make), s.rules, s.pos + 1))
    case Some((k, h)) =>
      match PerformAll(s.rules[k].effect, s.make.(location := Location(source, s.pos + h.offset, h.len)))
      case Err(e) => Err(e)
      case Ok(m1) =>
        match SwitchMode(modes, m1, s.rules)
        case Err(e) => Err(e)
        case Ok((m2, rules)) => Ok(Scan(m2, rules, s.pos + h.offset + h.len))
  }

  /** `while (it != end)`: iterate until the whole text is consumed. */
  function ScanFrom(matcher: Matcher, modes: Modes, text: string, source: nat, s: Scan): (r: Result<Make>)
    requires Advances(matcher) && s.pos <= |text|
    ensures s.pos == |text| ==> r == Ok(s.make)
    ensures r.Ok? && Rooted(s.make) ==> Rooted(r.value)
    decreases |text| - s.pos
  {
    if s.pos == |text| then Ok(s.make)
    else
      match Step(matcher, modes, text, source, s)
      case Err(e) => Err(e)
      case Ok(s1) => ScanFrom(matcher, modes, text, source, s1)
  }

  /** `parse_file` on a loaded source: scan from the `start` mode with the
      cursor on a fresh `File` root, then `done()` closes every open node. */
  function ParseText(matcher: Matcher, modes: Modes, text: string, source: nat): (r: Result<Node>)
    requires Advances(matcher)
    ensures "start" !in modes ==> r == Err(Fault("unknown mode: start"))
    ensures "start" in modes ==>
      var scanned := ScanFrom(matcher, modes, text, source, Scan(Start(source), modes["start"], 0));
      && (scanned.Err? ==> r == Err(scanned.error))
      && (scanned.Ok? ==> r == Done(scanned.value))
    ensures r.Ok? ==> r.value.kind == File
  {
    if "start" !in modes then Err(Fault("unknown mode: start"))
    else
      match ScanFrom(matcher, modes, text, source, Scan(Start(source), modes["start"], 0))
      case Err(e) => Err(e)
      case Ok(m) => Done(m)
  }

  /** `parse_file` with both repairs: every expression anchored as a whole,
      and `done()` stepping to a parent only when there is one. Once the
      scan succeeds, closing the tree never fails. */
  function ParseTextRepaired(matcher: Matcher, modes: Modes, text: string, source: nat): (r: Result<Node>)
    requires Advances(matcher)
    ensures "start" !in modes ==> r == Err(Fault("unknown mode: start"))
    ensures "start" in modes ==>
      (r.Ok? <==> ScanFrom(Anchored(matcher), modes, text, source, Scan(Start(source), modes["start"], 0)).Ok?)
    ensures r.Ok? ==> r.value.kind == File
  {
    if "start" !in modes then Err(Fault("unknown mode: start"))
    else
      AnchoredAdvances(matcher);
      match ScanFrom(Anchored(matcher), modes, text, source, Scan(Start(source), modes["start"], 0))
      case Err(e) => Err(e)
      case Ok(m) => DoneGuarded(m)
  }
}
