# langkit core in Dafny

This project models three parts of langkit, a C++ toolkit for building language front ends on one tree type:

- the lexer's tree-building cursor and scan loop (`src/langkit/parse.h`);
- the tree-pattern rewriter and its pass scheduler (`src/langkit/rewrite.h`);
- the well-formedness grammars and their checker (`src/langkit/wf.h`).

Nodes are immutable values `Node(kind, loc, children)`. A node type (`Token`) is its name as a string. Every place where the C++ mutates a tree in place becomes a function that returns the new tree.

- **Captures** (`capture.dfy`) model `detail::Capture`. The model keeps:
  - copy-construction, which keeps only the lookup node;
  - `+=`, which never overwrites;
  - `def`;
  - the single-node and binding accessors.
- **Patterns** (`pattern.dfy`, `pattern_facts.dfy`) turn the `PatternDef` subclasses into one datatype and one matcher, `Match`.
  - `Match` returns the success flag, the final sibling position and the final captures. It returns them even when the match fails, as the C++ leaves its by-reference arguments.
  - That a failed match changes nothing is proved, not assumed.
  - `Guarded` is a sufficient condition that rules out every pattern on which the source loops or dereferences past the end. It asks that:
    - `Rep` has a body that consumes;
    - `Children` has a head that consumes.
  - It also excludes some patterns the source runs safely, such as `Children(Inside(t), q)`, `Children(First, q)` and `Rep(Last)`.
- **Builders** (`builders.dfy`) model the `<<` overloads used by rule effects, `*range` (`RangeContents`) and `range | alt` (`RangeOr`).
- **Passes** (`pass.dfy`) model `Pass`:
  - `apply` works through the whole child list: at each position the rules are tried in order and the first that matches there fires; its run is replaced, scanning resumes at the replacement, and where no rule fires it moves one sibling on, so one `apply` can make many replacements and a later rule matching early fires before an earlier rule matching further on;
  - `top_down`, `bottom_up`, `run` (under a synthetic `Group` root) and `repeat` (to a fixpoint).
- **TreeBuilder** (`make.dfy`, `make_facts.dfy`) models `detail::Make` as a zipper. The zipper holds the cursor node and the open ancestors from the root down; the source's cursor is always the last child of its parent. Moving to the parent of the root dereferences a null parent pointer in the source and is the fault `Err(Fault("null parent"))` here.
- **Scanner** (`scan.dfy`) models the rule/mode loop of `parse_file`:
  - rules are tried in order at each position;
  - the first rule with a match runs its effect at the match's offset and length, and the scan continues after the match;
  - a pending mode switch is applied after the effect and then cleared;
  - where no rule matches, the character is marked `Invalid`;
  - at the end every open node is closed.
- **Wf** (`wf.dfy`, `wf_ops.dfy`, `wf_facts.dfy`) models:
  - `Choice`, `Sequence`, `Fields` and `Wellformed` checks, with the diagnostic stream as a list of `Diag` records;
  - `index_fields`, `index_wellformed`;
  - the grammar operators `|`, `*`, `>>=`, `<<=`, `++` and `to_wf`.
  - `WfFacts.Accepts` is an independent declarative definition of a conforming tree, and the checker is proved to decide it.

`rewrite_examples.dfy` and `scan_examples.dfy` hold worked runs. One rewrites `number plus number` into an `add` node. The other tokenises `12+3`.

## Model

| member | source | states |
|---|---|---|
| Captures.Copy | src/langkit/rewrite.h:26-29 | a copied capture carries the lookup node and nothing else |
| Captures.Merge | src/langkit/rewrite.h:62-68 | `+=` adds only the names, locations and defaults the left side lacks, each with the right side's value, never overwrites an existing entry, and adopts the right side's lookup node |
| Captures.MergeKeepsExisting | src/langkit/rewrite.h:62-68 | merging a copy only adopts its lookup node; merging a capture into itself, or one whose keys are already present, changes nothing else |
| Captures.MergeAssociative | src/langkit/rewrite.h:62-68 | nested merges can be regrouped: `(a += b) += c` equals `a += (b += c)` |
| Captures.Def | src/langkit/rewrite.h:36-39 | `def` registers or replaces the default location of one name and leaves every other name and all captures and bindings alone |
| Captures.Single | src/langkit/rewrite.h:41-44 | reading a name gives the first node of its range, and nothing exactly when the range is empty |
| Captures.Bind | src/langkit/rewrite.h:46-60 | binding fails exactly when the name captured two or more nodes; otherwise it records the node at the binding site, keeps every existing capture and default, inserts the name's empty range when it has none, and for an empty range inserts the default it used; the lookup node is kept |
| Captures.BindRecordsOnly | src/langkit/rewrite.h:46-60 | for a name already captured and, when its range is empty, already defaulted, binding adds only the binding |
| Captures.BindSite | src/langkit/rewrite.h:46-60 | the binding site is the registered default for an empty range (the default-constructed location if none), and the node's own location for a single node |
| Patterns.Match | src/langkit/rewrite.h:103-475 | the position stays among the siblings and never moves back; a failed match leaves position and captures as they were; a consuming pattern advances on success; bindings and defaults are untouched and no capture name is lost |
| Patterns.MergeBack | src/langkit/rewrite.h:62-68 | merging back a speculative copy that recorded no bindings or defaults keeps the caller's bindings, defaults and capture names |
| PatternFacts.PrimitiveStepsOne | src/langkit/rewrite.h:126-240 | the single-node matchers fail at the end and otherwise advance by exactly one node; `Any` succeeds exactly when a node is there, `T(type)` exactly when it has that type |
| PatternFacts.LookupChains | src/langkit/rewrite.h:159-214 | `S` and `L` only move the lookup cursor to the symbol they found; `L` fails when no lookup has been made |
| PatternFacts.PredicatesAreLookahead | src/langkit/rewrite.h:441-475 | `-p` and `--p` consume nothing and change no capture, and `--p` succeeds exactly when `-p` fails |
| PatternFacts.NotConsumesOne | src/langkit/rewrite.h:277-302 | `!p` fails at the end, otherwise succeeds exactly when `p` fails there, then consumes one node and keeps the captures |
| PatternFacts.OptAlwaysSucceeds | src/langkit/rewrite.h:242-259 | `~p` always succeeds and changes nothing when `p` fails |
| PatternFacts.ChoiceFirstMatchWins | src/langkit/rewrite.h:332-362 | `a / b` takes `a`'s result when `a` matches, and otherwise exactly `b`'s result from the original position and captures |
| PatternFacts.SeqChains | src/langkit/rewrite.h:304-330 | `a * b` succeeds exactly when `a` succeeds and `b` succeeds from where `a` stopped, on `a`'s captures, and the result merges `b`'s captures back |
| PatternFacts.CapRecordsRange | src/langkit/rewrite.h:103-124 | `p[name]` succeeds exactly when `p` does, and maps `name` to exactly the siblings consumed, keeping every other capture |
| PatternFacts.RepIsGreedy | src/langkit/rewrite.h:261-275 | `p++` always succeeds and stops only at the end or where one more `p` would fail |
| PatternFacts.RepLoopIsGreedy | src/langkit/rewrite.h:269-274 | the `while` loop of `Rep` stops only at the end or where the body fails |
| Builders.AppendNode | src/langkit/rewrite.h:600-604 | `node1 << node2` keeps the node and its children and appends exactly `node2` last |
| Builders.AppendRange | src/langkit/rewrite.h:606-610 | `node << range` appends exactly the range's nodes, in order, after the existing children |
| Builders.FlattenAppend | src/langkit/rewrite.h:612-623 | gathering children over a range extended by one node appends that node's children |
| Builders.AppendContents | src/langkit/rewrite.h:612-623 | `node << *range` appends the children of every node of the range, range order first and child order second |
| Builders.AppendRangeOr | src/langkit/rewrite.h:625-633 | `node << (range \| alt)` appends the range when it is non-empty and exactly `alt` otherwise |
| Builders.AppendToken | src/langkit/rewrite.h:635-639 | `node << type` keeps the node's type, location and children and appends one childless node of that type with no location |
| Builders.TokenFirstBuilders | src/langkit/rewrite.h:641-669 | `type << x` is a node of that type with no location whose children are exactly what `node << x` appends: the node, the range, the range or else the alternative, or one fresh leaf |
| Passes.NewPass | src/langkit/rewrite.h:677-685 | a new pass holds the given rules in order and runs top-down |
| Passes.WithDirection | src/langkit/rewrite.h:687-691 | `pass(dir)` changes only the direction |
| Passes.AddRules | src/langkit/rewrite.h:693-697 | `pass({rules})` appends rules after the existing ones and keeps the direction |
| Passes.AddedRulesRankLower | src/langkit/rewrite.h:693-697 | added rules have lower priority: wherever an existing rule fires, the extended pass fires the same rule with the same captures |
| Passes.TryRules | src/langkit/rewrite.h:766-787 | the first rule, in order, whose pattern matches from a cleared capture fires, with its captures and the run it matched; no rule fires exactly when every pattern fails |
| Passes.Splice | src/langkit/rewrite.h:772-776 | the matched run of children is replaced by the one replacement node; the children before and after are kept |
| Passes.Apply | src/langkit/rewrite.h:759-793 | `apply` keeps the node's type and location, returns the node unchanged when it counts no change, and makes no change, whatever the fuel, when no rule matches at any child position |
| Passes.ApplyFrom | src/langkit/rewrite.h:759-793 | `apply` keeps the node's type and location, counts at least as many changes as before, and returns the node unchanged when it counts no change |
| Passes.ApplyStep | src/langkit/rewrite.h:763-790 | without a matching rule, scanning moves one sibling on; when a rule fires, its run is replaced by the effect's node, the count grows by one and scanning resumes at the replacement; a failing effect aborts |
| Passes.TopDown | src/langkit/rewrite.h:749-757 | top-down rewriting keeps the node's type and location and reports no change only for an unchanged tree |
| Passes.TopDownQuiet | src/langkit/rewrite.h:749-757 | when no rule fires anywhere in the tree, fuel of at least the tree's height makes `top_down` return the tree unchanged with no change counted |
| Passes.TopDownAll | src/langkit/rewrite.h:753-754 | rewriting a list of children keeps its length, and no change means the list is unchanged |
| Passes.BottomUp | src/langkit/rewrite.h:738-747 | bottom-up rewriting keeps the node's type and location and reports no change only for an unchanged tree |
| Passes.BottomUpAll | src/langkit/rewrite.h:742-743 | rewriting a list of children keeps its length, and no change means the list is unchanged |
| Passes.Run | src/langkit/rewrite.h:699-723 | a run that reports no change returns the tree it was given |
| Passes.Repeat | src/langkit/rewrite.h:725-736 | the tree `repeat` returns is a fixpoint: one more run makes no change and returns it unchanged; a tree that already is one is returned as is |
| Passes.RepeatIdempotent | src/langkit/rewrite.h:725-736 | repeating a pass on what `repeat` returned gives it back unchanged |
| RewriteExamples.SumCaptures | src/langkit/rewrite.h:103-124 | `T(number)[lhs] * T(plus) * T(number)[rhs]` consumes all three siblings and captures the two numbers |
| RewriteExamples.ChildrenMatchesPrefix | src/langkit/rewrite.h:419-439 | `T(add) << T(number)` matches an `add` node with two number children |
| RewriteExamples.SumRewrite | src/langkit/rewrite.h:759-793 | applying the rule replaces the three siblings by one `add` node and counts one change |
| RewriteExamples.DeepTreeNeedsFuel | src/langkit/rewrite.h:749-757 | with no rules, a node with one child gives `NoFuel` with no fuel and is returned unchanged with one unit |
| TreeBuilder.Start | src/langkit/parse.h:47-51 | a new cursor sits on an empty `File` root with no pending mode |
| TreeBuilder.In | src/langkit/parse.h:78-81 | `in(type)` holds only when the tree contains a node of that type, the cursor |
| TreeBuilder.Previous | src/langkit/parse.h:83-90 | `previous(type)` is false outside a `Group` or in an empty one, and when it holds the cursor `Group` already holds a node of that type |
| TreeBuilder.Up | src/langkit/parse.h:140 | moving to the parent keeps the tree, drops one ancestor and is a fault exactly at the root |
| TreeBuilder.Add | src/langkit/parse.h:92-99 | `add` appends a leaf at the current location and first pushes an implicit `Group` unless the type is `Group` or the cursor is in one; afterwards a non-`Group` addition leaves the cursor in a `Group` whose last child has that type |
| TreeBuilder.Push | src/langkit/parse.h:129-133 | `push` adds and moves onto the new leaf, one or two levels deeper, keeping the open ancestors |
| TreeBuilder.ExtendNode | src/langkit/parse.h:156-159 | `extend` grows only the cursor node's location to cover the current match |
| TreeBuilder.MarkInvalid | src/langkit/parse.h:161-167 | `invalid` extends a cursor on `Invalid` and otherwise adds an `Invalid` leaf |
| TreeBuilder.Pop | src/langkit/parse.h:135-146 | `pop(type)` closes a cursor of that type, extending it, and otherwise records `Invalid` and leaves every node open |
| TreeBuilder.TryPop | src/langkit/parse.h:170-180 | `try_pop(type)` reports whether the cursor had that type and then closes it, extending it |
| TreeBuilder.Term | src/langkit/parse.h:148-154 | `term` never opens a node; without end types it fails exactly on a `Group` at the root, and from a `Group` it always goes up |
| TreeBuilder.Climb | src/langkit/parse.h:105-106 | the climb of `seq` stops at the first ancestor whose type is not skipped, keeping the tree; it faults exactly when every ancestor is skipped |
| TreeBuilder.SeqOp | src/langkit/parse.h:101-127 | outside a `Group`, `seq` is `invalid`; inside, it enters a parent of the requested type or wraps the climbed-to node in a new node of that type |
| TreeBuilder.SetMode | src/langkit/parse.h:73-76 | `mode(next)` records the pending switch and changes nothing else |
| TreeBuilder.Done | src/langkit/parse.h:182-198 | the source's `done`: when it succeeds on a tree grown from a `File` root it returns a `File` node, and it then agrees with the guarded version |
| TreeBuilder.CloseAll | src/langkit/parse.h:186-192 | the source's closing loop: a cursor at the root is returned as is, a success on a rooted tree is a `File` node, and every success agrees with the guarded loop |
| TreeBuilder.DoneGuarded | src/langkit/parse.h:182-198 | closing every open node of a tree grown from a `File` root always succeeds and returns a `File` node |
| TreeFacts.PlugCount | src/langkit/parse.h:92-198 | replacing the cursor node changes the tree's count of any type by exactly the difference |
| TreeFacts.AddCount | src/langkit/parse.h:92-99 | `add(t)` adds exactly one node of type `t`, plus one `Group` when it had to push one |
| TreeFacts.TermCount | src/langkit/parse.h:148-154 | `term` never adds or removes a node |
| TreeFacts.CloseAllGuardedCount | src/langkit/parse.h:186-192 | the closing loop adds only `Unclosed` markers and `Group`s, at least one marker when any node is still open and at most one per open ancestor |
| TreeFacts.DoneGuardedCount | src/langkit/parse.h:182-198 | `done` keeps the count of every type other than `Unclosed` and `Group`, adds an `Unclosed` marker exactly when a node other than the root is still open after the trailing `Group` is closed, and adds at most one per open ancestor |
| TreeFacts.CloseAllGuardedMarkers | src/langkit/parse.h:186-192 | with no `Group` open directly inside a `Group`, the closing loop of the source and the guarded one agree and add exactly one `Unclosed` marker per open non-`Group` node below the root |
| TreeFacts.DoneGuardedMarkers | src/langkit/parse.h:182-198 | with no `Group` open directly inside a `Group`, the source's `done` succeeds, agrees with the guarded one and adds exactly one `Unclosed` marker per open non-`Group` node below the root |
| Scanner.Perform | src/langkit/parse.h:73-180 | each action keeps the match location and keeps the tree rooted at `File` |
| Scanner.FirstRule | src/langkit/parse.h:329-353 | the rule that fires is the first one, in registration order, whose expression has a match in the rest of the text, and its hit is that match; none fires exactly when no expression matches |
| Scanner.SwitchMode | src/langkit/parse.h:343-350 | a pending mode switch selects that mode's rules and is cleared; an unknown mode is an error |
| Scanner.Step | src/langkit/parse.h:325-362 | each iteration moves forward within the text; without a matching rule it marks one character `Invalid`; with one it runs the effect at the match's offset and length and continues after the match, passing over the characters before the offset |
| Scanner.ScanFrom | src/langkit/parse.h:325-362 | the loop ends at the end of the text and keeps the tree rooted |
| Scanner.ParseText | src/langkit/parse.h:313-365 | a grammar without a `start` mode is the error `unknown mode: start`; otherwise a failed scan is its error and a finished scan is followed by the source's `done`, faults included; a successful parse returns a `File` node |
| Scanner.Anchored | src/langkit/parse.h:28-32 | anchoring the whole expression keeps exactly the search hits that start at the current position and drops the others |
| Scanner.AnchoredAdvances | src/langkit/parse.h:28-32 | an anchored matcher still makes progress, and each of its hits starts at offset zero and is non-empty |
| Scanner.ParseTextRepaired | src/langkit/parse.h:313-365 | with anchored expressions and the guarded `done`, a grammar with a `start` mode parses exactly when the scan succeeds, and the result is a `File` node |
| ScanExamples.LexSum | src/langkit/parse.h:313-365 | `12+3` scans to a `File` with one `Group` holding `number`, `plus`, `number` at their own spans, the `Group` extended over the text |
| ScanExamples.NestedGroupParse | src/langkit/parse.h:182-198 | `a` under a rule whose effect pushes two `Group`s parses to the fault `null parent` as written, and to a tree with the guarded `done` |
| ScanExamples.AlternationSkips | src/langkit/parse.h:331-337 | as written, `ay` under the one rule `x\|y` gives a tree with a single `word` at offset 1 and no `Invalid` node |
| ScanExamples.AlternationAnchored | src/langkit/parse.h:28-32 | with the whole expression anchored, `ay` under `x\|y` gives an `Invalid` node for `a` followed by the `word` at offset 1 |
| Wf.CheckChoice | src/langkit/wf.h:18-52 | a choice accepts exactly the listed types and otherwise reports one `unexpected` message |
| Wf.FindShape | src/langkit/wf.h:173-195 | the shape found is the first one declared for the type; none exactly when no shape names the type |
| Wf.Check | src/langkit/wf.h:204-210 | `check(wf, node)` succeeds exactly when it writes no message |
| Wf.CheckNode | src/langkit/wf.h:173-195 | a check succeeds exactly when it writes nothing; an empty grammar accepts every node; a type without a shape is reported |
| Wf.CheckSequence | src/langkit/wf.h:64-72 | every child is checked, also after a failure, and every child's messages appear in the result |
| Wf.CheckFields | src/langkit/wf.h:99-144 | success needs one child per field with a listed type; fewer children reports `too few`, more reports `too many` at the first extra child, and every field's messages appear |
| Wf.IndexFields | src/langkit/wf.h:212-225 | the index is the position of the first field with that name, and empty exactly when no field has it |
| Wf.IndexWellformed | src/langkit/wf.h:227-248 | indexing searches only the first shape for the type; a sequence shape or a missing type gives the empty index |
| WfFacts.CheckDecidesAccepts | src/langkit/wf.h:173-209 | the checker succeeds exactly on the trees that conform to the grammar, defined independently of it |
| WfFacts.CheckSequenceAccepts | src/langkit/wf.h:64-72 | a sequence check succeeds exactly when every child has a listed type and conforms |
| WfFacts.CheckFieldsAccepts | src/langkit/wf.h:99-144 | a fields check succeeds exactly when the children pair up with the fields, each of a listed type and conforming |
| WfFacts.IndexResolvesField | src/langkit/wf.h:227-248 | on an accepted node with a fields shape, a non-empty index names a child that exists and whose type the field allows |
| WfFacts.FindShapeAppend | src/langkit/wf.h:400-405 | in a joined grammar the left grammar's shape for a type wins |
| WfFacts.OrLeftFirst | src/langkit/wf.h:400-481 | in the corrected `a \| b` the left operand's shape for a type wins over the right's |
| WfFacts.OrAsWrittenLeftFirst | src/langkit/wf.h:400-481 | in the source's `a \| b` the left operand's shape for a type, as it lifts that operand, wins over the right's |
| WfOps.ChoiceOr | src/langkit/wf.h:256-289 | the choice `\|` lists the left types then the right ones and allows exactly the types of either |
| WfOps.TokenField | src/langkit/wf.h:302-306 | `name >>= type` is a field of that name allowing exactly that type |
| WfOps.Product | src/langkit/wf.h:314-372 | `a * b` holds `a`'s fields followed by `b`'s, a bare type `t` counting as the field `t >>= t` |
| WfOps.ShapeOf | src/langkit/wf.h:374-398 | `type <<= x` shapes that type as a sequence of the choice, or as the fields of `x`; `type1 <<= type2` is the single field `type2 >>= type2` |
| WfOps.ToWfChoice | src/langkit/wf.h:491-507 | `to_wf(choice)` has one childless shape per listed type, in order |
| WfOps.ToWfTokenAsWritten | src/langkit/wf.h:509-513 | as written, `to_wf(type)` is the single self-field shape `type <<= type` |
| WfOps.ToWfToken | src/langkit/wf.h:509-513 | corrected, `to_wf(type)` is the single childless shape of that type |
| WfOps.LiftAsWritten | src/langkit/wf.h:400-481 | as the source's `\|` lifts an operand, a bare type becomes a leaf on the right of a grammar and the self-field shape everywhere else |
| WfOps.OrAsWritten | src/langkit/wf.h:400-481 | the source's grammar `\|`: `wf \| type` appends a leaf shape, `shape \| type` pairs the shape with the self-field shape, a bare type on the left becomes the self-field shape, and a choice on the left becomes its leaf shapes, first |
| WfOps.Or | src/langkit/wf.h:400-481 | the corrected grammar `\|`: the left operand's shapes then the right's, every bare type a leaf; it equals the source's wherever no bare type is lifted to a self-field |
| WfFacts.TokenFieldShapeMeaning | src/langkit/wf.h:394-398 | `k <<= t` accepts exactly a node with a single child of type `t` that conforms |
| WfFacts.ProductFieldsSplit | src/langkit/wf.h:314-371 | the fields of `a * b` are `a`'s fields checked against the first children and `b`'s against the rest |
| WfFacts.LeafShapeAcceptsLeaves | src/langkit/wf.h:420-426 | `type <<= Fields<>({})` accepts exactly the childless nodes of that type |
| WfFacts.ToWfChoiceLeaves | src/langkit/wf.h:491-507 | `to_wf(choice)` accepts exactly the childless nodes of the listed types |
| WfFacts.SelfShapeRejects | src/langkit/wf.h:394-398 | a type whose shape is `t <<= t` accepts no node at all, since each would need an infinite chain of `t` children |
| WfFacts.ToWfTokenAsWrittenRejects | src/langkit/wf.h:509-513 | `to_wf(type)` as written accepts no node of that type |
| WfFacts.ToWfTokenAcceptsLeaves | src/langkit/wf.h:509-513 | the corrected `to_wf(type)` accepts exactly the childless nodes of that type |
| WfFacts.OrTokenDependsOnLeftOperand | src/langkit/wf.h:421-454 | as written, `to_wf(s) \| t` accepts a `t` leaf but `s \| t` rejects it; the corrected `\|` accepts it in both |
| TreeFacts.DoneFaultsOnNestedGroup | src/langkit/parse.h:182-198 | as written, `done` on a cursor two `Group`s deep steps past the root, while the guarded version succeeds |

## Left out

- Regular-expression matching is a parameter. `Patterns.Oracle.fullMatch` stands for `std::regex_match` on a node's text, and the scanner's `Matcher` for `std::regex_search` of the `^`-prefixed expression, reporting the match's offset and length. `Scanner.Advances` asks that a match lie inside the text and end past the current position; only an empty match at offset 0 makes the source's loop spin forever.
- Symbol tables are parameters: `find_first` and `at` are `Oracle.findFirst` and `Oracle.at`. `Capture::bind` and the effects' `scope()->bind` are not modelled; the model records only the bindings map.
- `Location::extend` and `linecol` live outside these headers and are not part of this model. `Ast.Extend` is the covering span of two locations in the same source; a location in a different source leaves the span unchanged, so a node created at the default-constructed location (source 0) keeps it when extended by a match.
- The text of diagnostics (line/column prefixes, the `a, b or c` list formatting) is replaced by `Diag` records that carry the same type, location and expected choice.
- `Parse` file and directory plumbing (`parse`, `sub_parse`, `parse_directory`, the pre/post hooks, `depth`) is left out: it is I/O over the scan loop.
- Passes.Repeat: bounded by `rounds` runs, where the source has no bound; `Err(NoFuel)` when they run out.
- Passes.TopDown: `fuel` bounds both the rule firings of each `apply` and the depth of the descent, so `Err(NoFuel)` can stand for a run the source completes on a deep tree. `Passes.TopDownQuiet` shows that fuel of at least the tree's height suffices when no rule fires, and `RewriteExamples.DeepTreeNeedsFuel` exhibits both cases.
- Passes.ApplyFrom: bounded by `fuel` firings, where the source keeps rewriting without bound.
- Patterns.Match: requires `Guarded`, a sufficient condition. Every pattern on which the source loops forever (`p++` with a body that succeeds without consuming) or dereferences past the end (`Children` with a head that succeeds at the end without consuming) fails it. So do some patterns the source runs safely, such as `Children(Inside(t), q)` and `Children(First, q)`, whose heads fail at the end, and `Rep(Last)`, whose body succeeds only at the end, where `Rep` never runs it; those patterns are outside the model too.
- Captures.Single: an empty range gives `None`; the source dereferences the begin iterator of the empty range, which is undefined.
- Reading `captures[name]` through `operator[]` inserts an empty entry for a missing name in the source. The model reads a missing name as the empty range without inserting it, except in `Captures.Bind`, which models both insertions the source makes there: the empty range and, for an empty range, the default-constructed entry of `defaults[name]`.
- Builders.AppendContents: the source also clears the children of the range's nodes; those nodes are erased by the rewrite that uses them, so the model does not return them.
- Scanner.Perform: rule effects are arbitrary C++ callbacks in the source; the model runs programs over the cursor operations with branches on `in` and `previous`. Effects that inspect the match text, `pos()`, `len()` or `linecol()` are not modelled.
- The `node != top` check at the end of `done` cannot fail in the zipper, whose path always ends at the root.
- `Pattern`'s operator overloads (`[]`, `~`, `-`, `--`, `++`, `!`, `*`, `/`, `<<`) are the constructors of `Patterns.Pattern`; `>>` pairing a pattern with an effect is `Passes.Rule`.
- The source's `Unclosed` markers are placed where the cursor is and are not extended to the end of the input; the model follows the code.
- `Children(head, children)` matches the child pattern against a prefix of the head node's children, not all of them (`RewriteExamples.ChildrenMatchesPrefix`); the model follows the code.
- An `Invalid` node added where no rule matches carries the location of the last match, not the position of the unmatched character, since the source does not update `location` there; the model follows the code.
- TreeFacts.CloseAllGuardedCount: bounds the number of `Unclosed` markers rather than giving it exactly, because it covers every cursor. A `Group` open directly inside a `Group` gets no marker of its own, and there the source's `done` faults. The exact count, one marker per open non-`Group` node below the root, is `TreeFacts.CloseAllGuardedMarkers` for cursors without such nesting.
- TreeFacts.DoneGuardedCount: bounded for the same reason. The exact count is `TreeFacts.DoneGuardedMarkers`.
- The integer widths of the source (`size_t` positions and change counts) are unbounded here; no overflow is reachable in practice.

## Findings

| source | as written | input that shows it | evidently intended | confidence | as-written member | corrected member |
|---|---|---|---|---|---|---|
| src/langkit/parse.h:182-198 | after `term()` inside the loop, `done` steps to the cursor's parent unconditionally | a cursor on a `Group` directly inside a `Group` under the root, as `push(Group)` inside a `Group` leaves it: the loop pops both `Group`s onto the root and then dereferences the root's null parent | step to the parent only when there is one, so that `done` always returns the root | medium, not executed | TreeBuilder.Done, Scanner.ParseText, TreeFacts.DoneFaultsOnNestedGroup, ScanExamples.NestedGroupParse | TreeBuilder.DoneGuarded, Scanner.ParseTextRepaired, TreeFacts.DoneGuardedCount |
| src/langkit/wf.h:450-454, 470-481, 509-513 | a bare type in `shape \| type`, `type \| wf`, `type \| shape` and `to_wf(type)` becomes `type <<= type`, one field of that same type | any node of that type: it would need a child of the same type, and so on without end, so no finite tree passes | a childless leaf `type <<= Fields<>({})`, as `wf \| type` and `to_wf(choice)` build | medium, not executed | WfOps.OrAsWritten, WfOps.ToWfTokenAsWritten, WfFacts.OrTokenDependsOnLeftOperand, WfFacts.ToWfTokenAsWrittenRejects | WfOps.Or, WfOps.ToWfToken, WfFacts.ToWfTokenAcceptsLeaves |
| src/langkit/parse.h:28-32, 331-337 | every rule's expression is prefixed with `^` and found with `regex_search`, and the scan position moves by `match_.position()` before the effect runs | the rule `x\|y` on the text `ay`: `^` binds only to `x`, the search finds `y` at offset 1, and `a` is passed over without an `Invalid` node | anchor the whole expression, as `^(?:r)`, so that a rule matches only at the current position and an unmatched character is marked `Invalid` | medium, not executed | Scanner.Step, Scanner.ParseText, ScanExamples.AlternationSkips | Scanner.Anchored, Scanner.AnchoredAdvances, Scanner.ParseTextRepaired, ScanExamples.AlternationAnchored |
