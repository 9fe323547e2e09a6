/** A worked run of the scan loop: a `start` mode with a number rule and a
    plus rule tokenising `12+3`. */
module ScanExamples {
  import opened Ast
  import opened TreeBuilder
  import opened Scanner
  import opened TreeFacts

  const Number: Token := "number"
  const Plus: Token := "plus"
  const DigitsRegex := "[0-9]+"
  const PlusRegex := "\\+"

  /** Length of the run of decimal digits at the start of `s`. */
  function Digits(s: string): (n: nat)
    ensures n <= |s|
    ensures forall i | 0 <= i < n :: '0' <= s[i] <= '9'
    ensures n < |s| ==> !('0' <= s[n] <= '9')
  {
    if |s| > 0 && '0' <= s[0] <= '9' then 1 + Digits(s[1..]) else 0
  }

  /** The search of the two expressions used here; neither has an
      alternation, so every match is at the current position. */
  function ExampleMatcher(regex: string, rest: string): Option<Hit> {
    if regex == DigitsRegex then
      var n := Digits(rest);
      if n > 0 then Some(Hit(0, n)) else None
    else if regex == PlusRegex then
      if |rest| > 0 && rest[0] == '+' then Some(Hit(0, 1)) else None
    else None
  }

  lemma ExampleMatcherAdvances()
    ensures Advances(ExampleMatcher)
  {
    forall regex: string, rest: string | ExampleMatcher(regex, rest).Some?
      ensures 0 < ExampleMatcher(regex, rest).value.offset + ExampleMatcher(regex, rest).value.len <= |rest|
    {
      var n := Digits(rest);
    }
  }

  function ExampleModes(): Modes {
    map["start" := [LexRule(DigitsRegex, [AddAct(Number)]), LexRule(PlusRegex, [AddAct(Plus)])]]
  }

  /** `12+3` becomes a `File` holding one `Group` of `Number`, `Plus` and
      `Number`, each located at its own characters; closing the `Group` at
      the end extends it over the whole text. */
  lemma LexSum(s: nat)
    ensures Advances(ExampleMatcher) && ParseText(ExampleMatcher, ExampleModes(), "12+3", s)
      == Ok(Node(File, Location(s, 0, 0),
                 [Node(Group, Location(s, 0, 4),
                       [Leaf(Number, Location(s, 0, 2)), Leaf(Plus, Location(s, 2, 1)), Leaf(Number, Location(s, 3, 1))])]))
  {
    ExampleMatcherAdvances();
    var text := "12+3";
    var modes := ExampleModes();
    var rules := modes["start"];
    var root := Location(s, 0, 0);
    var n1 := Leaf(Number, Location(s, 0, 2));
    var p := Leaf(Plus, Location(s, 2, 1));
    var n2 := Leaf(Number, Location(s, 3, 1));

    var s0 := Scan(Start(s), rules, 0);
    assert Digits(text[0..]) == 2 by {
      assert text[0..] == "12+3" && "12+3"[1..] == "2+3" && "2+3"[1..] == "+3";
    }
    var s1 := Scan(Make(Node(Group, Location(s, 0, 2), [n1]), [Frame(File, root, [])], Location(s, 0, 2), None), rules, 2);
    assert FirstRule(ExampleMatcher, rules, text[0..], 0) == Some((0, Hit(0, 2)));
    var at0 := Start(s).(location := Location(s, 0, 2));
    assert Add(at0, Number) == s1.make;
    assert PerformAll([AddAct(Number)], at0) == Ok(s1.make);
    assert Step(ExampleMatcher, modes, text, s, s0) == Ok(s1);

    assert text[2..] == "+3";
    var s2 := Scan(Make(Node(Group, Location(s, 0, 2), [n1, p]), [Frame(File, root, [])], Location(s, 2, 1), None), rules, 3);
    assert ExampleMatcher(DigitsRegex, "+3") == None;
    assert FirstRule(ExampleMatcher, rules, text[2..], 0) == Some((1, Hit(0, 1)));
    var at2 := s1.make.(location := Location(s, 2, 1));
    assert [n1] + [p] == [n1, p];
    assert Add(at2, Plus) == s2.make;
    assert PerformAll([AddAct(Plus)], at2) == Ok(s2.make);
    assert Step(ExampleMatcher, modes, text, s, s1) == Ok(s2);

    assert text[3..] == "3" && Digits("3") == 1;
    var s3 := Scan(Make(Node(Group, Location(s, 0, 2), [n1, p, n2]), [Frame(File, root, [])], Location(s, 3, 1), None), rules, 4);
    assert FirstRule(ExampleMatcher, rules, text[3..], 0) == Some((0, Hit(0, 1)));
    var at3 := s2.make.(location := Location(s, 3, 1));
    assert [n1, p] + [n2] == [n1, p, n2];
    assert Add(at3, Number) == s3.make;
    assert PerformAll([AddAct(Number)], at3) == Ok(s3.make);
    assert Step(ExampleMatcher, modes, text, s, s2) == Ok(s3);

    assert ScanFrom(ExampleMatcher, modes, text, s, s2) == ScanFrom(ExampleMatcher, modes, text, s, s3) == Ok(s3.make);
    assert ScanFrom(ExampleMatcher, modes, text, s, s1) == ScanFrom(ExampleMatcher, modes, text, s, s2);
    assert ScanFrom(ExampleMatcher, modes, text, s, s0) == ScanFrom(ExampleMatcher, modes, text, s, s1);
    var closed := Make(Node(File, root, [Node(Group, Location(s, 0, 4), [n1, p, n2])]), [], Location(s, 3, 1), None);
    assert Extend(Location(s, 0, 2), Location(s, 3, 1)) == Location(s, 0, 4);
    var g := Node(Group, Location(s, 0, 4), [n1, p, n2]);
    assert ExtendNode(s3.make) == s3.make.(node := g);
    assert [] + [g] == [g];
    assert Up(s3.make.(node := g)) == Ok(closed);
    assert Term(s3.make, []) == Ok(closed);
    assert Done(s3.make) == CloseAll(closed);
  }

  /** Source identity of the two texts below. */
  const Src: nat := 1

  const Word: Token := "word"
  const LetterA := "a"
  const AltRegex := "x|y"

  /** The first position of `c` in `rest`. */
  function FirstOf(c: char, rest: string): (r: Option<nat>)
    ensures r.Some? ==> r.value < |rest| && rest[r.value] == c && forall j | 0 <= j < r.value :: rest[j] != c
    ensures r.None? ==> forall j | 0 <= j < |rest| :: rest[j] != c
  {
    if |rest| == 0 then None
    else if rest[0] == c then Some(0)
    else
      match FirstOf(c, rest[1..])
      case None => None
      case Some(i) => Some(i + 1)
  }

  /** The search of `^a`, and of `^x|y`, in which `^` anchors only `x`. */
  function SearchMatcher(regex: string, rest: string): Option<Hit> {
    if regex == LetterA then
      if |rest| > 0 && rest[0] == 'a' then Some(Hit(0, 1)) else None
    else if regex == AltRegex then
      if |rest| > 0 && rest[0] == 'x' then Some(Hit(0, 1))
      else
        match FirstOf('y', rest)
        case None => None
        case Some(i) => Some(Hit(i, 1))
    else None
  }

  lemma SearchMatcherAdvances()
    ensures Advances(SearchMatcher)
  {
  }

  /** A rule whose effect opens a `Group` inside a `Group`. */
  function NestModes(): Modes {
    map["start" := [LexRule(LetterA, [PushAct(Group), PushAct(Group)])]]
  }

  /** A rule with an alternation that adds a `word`. */
  function AltModes(): Modes {
    map["start" := [LexRule(AltRegex, [AddAct(Word)])]]
  }

  /** `a` under a rule that pushes two `Group`s: the scan succeeds, and the
      source's `done()` then steps past the root, while the repaired parse
      returns a tree. */
  lemma NestedGroupParse()
    ensures Advances(SearchMatcher)
    ensures ParseText(SearchMatcher, NestModes(), "a", Src) == Err(Fault("null parent"))
    ensures ParseTextRepaired(SearchMatcher, NestModes(), "a", Src).Ok?
  {
    SearchMatcherAdvances();
    AnchoredAdvances(SearchMatcher);
    var modes := NestModes();
    var rules := modes["start"];
    var at0 := Start(Src).(location := Location(Src, 0, 1));
    var m := Push(Push(at0, Group), Group);
    DoneFaultsOnNestedGroup(at0);
    assert PerformAll([PushAct(Group)], Push(at0, Group)) == Ok(m);
    assert PerformAll([PushAct(Group), PushAct(Group)], at0) == Ok(m);
    var s0 := Scan(Start(Src), rules, 0);
    var s1 := Scan(m, rules, 1);
    assert FirstRule(SearchMatcher, rules, "a"[0..], 0) == Some((0, Hit(0, 1)));
    assert Step(SearchMatcher, modes, "a", Src, s0) == Ok(s1);
    assert ScanFrom(SearchMatcher, modes, "a", Src, s0) == Ok(m);
    assert FirstRule(Anchored(SearchMatcher), rules, "a"[0..], 0) == Some((0, Hit(0, 1)));
    assert Step(Anchored(SearchMatcher), modes, "a", Src, s0) == Ok(s1);
    assert ScanFrom(Anchored(SearchMatcher), modes, "a", Src, s0) == Ok(m);
  }

  /** `ay` under the single rule `x|y`: the source's search finds `y` one
      character on, so `a` is passed over without an `Invalid` node. */
  lemma AlternationSkips()
    ensures Advances(SearchMatcher)
    ensures ParseText(SearchMatcher, AltModes(), "ay", Src)
      == Ok(Node(File, Location(Src, 0, 0),
                 [Node(Group, Location(Src, 1, 1), [Leaf(Word, Location(Src, 1, 1))])]))
  {
    SearchMatcherAdvances();
    var root := Location(Src, 0, 0);
    var g := Node(Group, Location(Src, 1, 1), [Leaf(Word, Location(Src, 1, 1))]);
    var m1 := Make(g, [Frame(File, root, [])], Location(Src, 1, 1), None);
    SkippingStep(m1);
    assert ExtendNode(m1) == m1;
    assert m1.path[..0] == [] && m1.path[0].left + [m1.node] == [g];
    var top := Make(Node(File, root, [g]), [], Location(Src, 1, 1), None);
    assert Up(m1) == Ok(top);
    assert Term(m1, []) == Ok(top);
    assert Done(m1) == Ok(top.node);
  }

  /** The search for `x|y` in `ay` finds `y` at offset 1. */
  lemma SkipHit()
    ensures FirstRule(SearchMatcher, AltModes()["start"], "ay"[0..], 0) == Some((0, Hit(1, 1)))
  {
    assert "ay"[0..] == "ay" && "ay"[1..] == "y";
    assert FirstOf('y', "ay") == Some(1);
    assert SearchMatcher(AltRegex, "ay") == Some(Hit(1, 1));
  }

  /** The search finds `y` at offset 1 and the rule's `word` is added there. */
  lemma SkippingStep(m1: Make)
    requires m1 == Make(Node(Group, Location(Src, 1, 1), [Leaf(Word, Location(Src, 1, 1))]),
                        [Frame(File, Location(Src, 0, 0), [])], Location(Src, 1, 1), None)
    ensures Advances(SearchMatcher)
    ensures ScanFrom(SearchMatcher, AltModes(), "ay", Src, Scan(Start(Src), AltModes()["start"], 0)) == Ok(m1)
  {
    SearchMatcherAdvances();
    var modes := AltModes();
    var rules := modes["start"];
    var s0 := Scan(Start(Src), rules, 0);
    SkipHit();
    var at1 := Start(Src).(location := Location(Src, 1, 1));
    assert Add(at1, Word) == m1;
    assert PerformAll([AddAct(Word)], at1) == Ok(m1);
    assert Step(SearchMatcher, modes, "ay", Src, s0) == Ok(Scan(m1, rules, 2));
  }

  /** With `x|y` anchored as a whole, `a` is reported `Invalid` and `y` is
      matched where it stands. */
  lemma AlternationAnchored()
    ensures Advances(SearchMatcher)
    ensures ParseTextRepaired(SearchMatcher, AltModes(), "ay", Src)
      == Ok(Node(File, Location(Src, 0, 0),
                 [Node(Group, NoLocation, [Leaf(Invalid, NoLocation), Leaf(Word, Location(Src, 1, 1))])]))
  {
    SearchMatcherAdvances();
    AnchoredAdvances(SearchMatcher);
    var root := Location(Src, 0, 0);
    var i := Leaf(Invalid, NoLocation);
    var n1 := Make(Node(Group, NoLocation, [i]), [Frame(File, root, [])], NoLocation, None);
    AnchoredFirstStep(n1);
    var g2 := Node(Group, NoLocation, [i, Leaf(Word, Location(Src, 1, 1))]);
    var n2 := Make(g2, [Frame(File, root, [])], Location(Src, 1, 1), None);
    AnchoredSecondStep(n1, n2);
    assert ExtendNode(n2) == n2;
    assert n2.path[..0] == [] && n2.path[0].left + [n2.node] == [g2];
    var top := Make(Node(File, root, [g2]), [], Location(Src, 1, 1), None);
    assert Up(n2) == Ok(top);
    assert Term(n2, []) == Ok(top);
    assert DoneGuarded(n2) == Ok(top.node);
    assert ParseTextRepaired(SearchMatcher, AltModes(), "ay", Src) == DoneGuarded(n2);
  }

  /** The anchored search finds nothing at `a`, which becomes `Invalid`. */
  lemma AnchoredFirstStep(n1: Make)
    requires n1 == Make(Node(Group, NoLocation, [Leaf(Invalid, NoLocation)]),
                        [Frame(File, Location(Src, 0, 0), [])], NoLocation, None)
    ensures Advances(SearchMatcher)
    ensures var rules := AltModes()["start"];
      ScanFrom(Anchored(SearchMatcher), AltModes(), "ay", Src, Scan(Start(Src), rules, 0))
        == ScanFrom(Anchored(SearchMatcher), AltModes(), "ay", Src, Scan(n1, rules, 1))
  {
    SearchMatcherAdvances();
    AnchoredAdvances(SearchMatcher);
    var rules := AltModes()["start"];
    assert "ay"[0..] == "ay";
    assert FirstRule(Anchored(SearchMatcher), rules, "ay"[0..], 0) == None;
    assert MarkInvalid(Start(Src)) == n1;
    assert Step(Anchored(SearchMatcher), AltModes(), "ay", Src, Scan(Start(Src), rules, 0)) == Ok(Scan(n1, rules, 1));
  }

  /** The anchored search then matches `y` at its own position. */
  lemma AnchoredSecondStep(n1: Make, n2: Make)
    requires n1 == Make(Node(Group, NoLocation, [Leaf(Invalid, NoLocation)]),
                        [Frame(File, Location(Src, 0, 0), [])], NoLocation, None)
    requires n2 == Make(Node(Group, NoLocation, [Leaf(Invalid, NoLocation), Leaf(Word, Location(Src, 1, 1))]),
                        [Frame(File, Location(Src, 0, 0), [])], Location(Src, 1, 1), None)
    ensures Advances(SearchMatcher)
    ensures var rules := AltModes()["start"];
      ScanFrom(Anchored(SearchMatcher), AltModes(), "ay", Src, Scan(n1, rules, 1)) == Ok(n2)
  {
    SearchMatcherAdvances();
    AnchoredAdvances(SearchMatcher);
    var am := Anchored(SearchMatcher);
    var modes := AltModes();
    var rules := modes["start"];
    assert "ay"[1..] == "y" && FirstOf('y', "y") == Some(0);
    assert FirstRule(am, rules, "ay"[1..], 0) == Some((0, Hit(0, 1)));
    var at2 := n1.(location := Location(Src, 1, 1));
    assert n1.node.children + [Leaf(Word, Location(Src, 1, 1))] == n2.node.children;
    assert Add(at2, Word) == n2;
    assert PerformAll([AddAct(Word)], at2) == Ok(n2);
    assert Step(am, modes, "ay", Src, Scan(n1, rules, 1)) == Ok(Scan(n2, rules, 2));
  }
}
