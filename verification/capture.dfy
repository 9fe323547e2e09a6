/** The bookkeeping a pattern match produces (`detail::Capture` in
    src/langkit/rewrite.h): named node ranges, deferred symbol bindings,
    default locations for ranges that matched nothing, and the node the
    last symbol lookup found. */
module Captures {
  import opened Ast

  /** A captured range is kept as the run of sibling nodes it covers. */
  datatype Capture = Capture(
    captures: map<Token, seq<Node>>,
    bindings: map<Location, Node>,
    defaults: map<Token, Location>,
    lookup: Option<Node>)

  /** A default-constructed (or cleared) capture. */
  const Empty := Capture(map[], map[], map[], None)

  /** The copy constructor: only the lookup node is carried over, so a
      speculative copy starts with no captures, bindings or defaults. */
  function Copy(c: Capture): (r: Capture)
    ensures r.lookup == c.lookup
    ensures r.captures.Keys == {} && r.bindings.Keys == {} && r.defaults.Keys == {}
  {
    Capture(map[], map[], map[], c.lookup)
  }

  /** `c += d`: every entry of `d` whose key `c` does not have yet is added
      (`map::insert` never overwrites), and the lookup node is `d`'s. */
  function Merge(c: Capture, d: Capture): (r: Capture)
    ensures r.captures.Keys == c.captures.Keys + d.captures.Keys
    ensures forall t :: t in c.captures ==> r.captures[t] == c.captures[t]
    ensures forall t :: t in d.captures && t !in c.captures ==> r.captures[t] == d.captures[t]
    ensures r.bindings.Keys == c.bindings.Keys + d.bindings.Keys
    ensures forall l :: l in c.bindings ==> r.bindings[l] == c.bindings[l]
    ensures forall l :: l in d.bindings && l !in c.bindings ==> r.bindings[l] == d.bindings[l]
    ensures r.defaults.Keys == c.defaults.Keys + d.defaults.Keys
    ensures forall t :: t in c.defaults ==> r.defaults[t] == c.defaults[t]
    ensures forall t :: t in d.defaults && t !in c.defaults ==> r.defaults[t] == d.defaults[t]
    ensures r.lookup == d.lookup
  {
    Capture(d.captures + c.captures, d.bindings + c.bindings, d.defaults + c.defaults, d.lookup)
  }

  /** `c[name] = range`, the one place a capture entry is overwritten. */
  function Set(c: Capture, name: Token, range: seq<Node>): Capture {
    c.(captures := c.captures[name := range])
  }

  /** `c[name]` read as a value: a name never captured reads as the empty range. */
  function Range(c: Capture, name: Token): seq<Node> {
    if name in c.captures then c.captures[name] else []
  }

  /** `def(token, loc)`: register (or replace) the default location of a name. */
  function Def(c: Capture, name: Token, loc: Location): (r: Capture)
    ensures r.defaults.Keys == c.defaults.Keys + {name} && r.defaults[name] == loc
    ensures forall t :: t in c.defaults && t != name ==> r.defaults[t] == c.defaults[t]
    ensures r.captures == c.captures && r.bindings == c.bindings && r.lookup == c.lookup
  {
    c.(defaults := c.defaults[name := loc])
  }

  /** `operator()(Token)`: the first node of a captured range, if there is one. */
  function Single(c: Capture, name: Token): (r: Option<Node>)
    ensures r.Some? <==> |Range(c, name)| > 0
    ensures r.Some? ==> r.value == Range(c, name)[0]
  {
    var range := Range(c, name);
    if |range| == 0 then None else Some(range[0])
  }

  /** The location a binding for `name` is keyed by: the registered default
      for an empty range, the single node's own location otherwise. */
  function BindingSite(c: Capture, name: Token): Location
    requires |Range(c, name)| <= 1
  {
    var range := Range(c, name);
    if |range| == 0 then (if name in c.defaults then c.defaults[name] else NoLocation)
    else range[0].loc
  }

  /** `operator()(Binding)`: record that `node` binds the symbol captured
      under `name`. Two or more captured nodes is a fault. Reading the
      range and, for an empty range, the default goes through
      `operator[]`, which inserts an empty range and a default-constructed
      location for a name that has none. */
  function Bind(c: Capture, name: Token, node: Node): (r: Result<Capture>)
    ensures r.Err? <==> |Range(c, name)| >= 2
    ensures r.Ok? ==> |Range(c, name)| <= 1 && r.value.bindings == c.bindings[BindingSite(c, name) := node]
    ensures r.Ok? ==>
      && r.value.captures.Keys == c.captures.Keys + {name} && Range(r.value, name) == Range(c, name)
      && forall t :: t in c.captures ==> r.value.captures[t] == c.captures[t]
    ensures r.Ok? && |Range(c, name)| == 0 ==>
      r.value.defaults.Keys == c.defaults.Keys + {name} && r.value.defaults[name] == BindingSite(c, name)
    ensures r.Ok? && |Range(c, name)| == 1 ==> r.value.defaults == c.defaults
    ensures r.Ok? ==> (forall t :: t in c.defaults ==> r.value.defaults[t] == c.defaults[t]) && r.value.lookup == c.lookup
  {
    var range := Range(c, name);
    if |range| >= 2 then Err(Fault("Can only bind to a single node"))
    else
      var site := BindingSite(c, name);
      var c1 := c.(captures := c.captures[name := range], bindings := c.bindings[site := node]);
      if |range| == 0 then Ok(c1.(defaults := c.defaults[name := site])) else Ok(c1)
  }

  /** Resolving a binding: an empty range uses the default location, a
      single node uses that node's location, and more than one node is an
      error. */
  lemma BindSite(c: Capture, name: Token, node: Node)
    ensures |Range(c, name)| == 0 && name in c.defaults ==>
      Bind(c, name, node).Ok? && Bind(c, name, node).value.bindings == c.bindings[c.defaults[name] := node]
    ensures |Range(c, name)| == 0 && name !in c.defaults ==>
      Bind(c, name, node).Ok? && Bind(c, name, node).value.bindings == c.bindings[NoLocation := node]
    ensures |Range(c, name)| == 1 ==>
      Bind(c, name, node).Ok? && Bind(c, name, node).value.bindings == c.bindings[c.captures[name][0].loc := node]
    ensures |Range(c, name)| >= 2 ==> Bind(c, name, node).Err?
  {
  }

  /** Binding a name already captured and defaulted adds only the binding. */
  lemma BindRecordsOnly(c: Capture, name: Token, node: Node)
    requires name in c.captures && |c.captures[name]| <= 1
    requires |c.captures[name]| == 0 ==> name in c.defaults
    ensures Bind(c, name, node) == Ok(c.(bindings := c.bindings[BindingSite(c, name) := node]))
  {
    assert c.captures[name := c.captures[name]] == c.captures;
    if |c.captures[name]| == 0 {
      assert c.defaults[name := c.defaults[name]] == c.defaults;
    }
  }

  /** Merging never overwrites: `c` is contained in `c += d`, and merging a
      capture that holds nothing only adopts its lookup node. */
  lemma MergeKeepsExisting(c: Capture, d: Capture)
    ensures Merge(c, Copy(d)) == c.(lookup := d.lookup)
    ensures Merge(c, c) == c
    ensures (d.captures.Keys <= c.captures.Keys && d.bindings.Keys <= c.bindings.Keys
             && d.defaults.Keys <= c.defaults.Keys) ==> Merge(c, d) == c.(lookup := d.lookup)
  {
  }

  /** `+=` is associative, so nested speculative merges can be regrouped. */
  lemma MergeAssociative(a: Capture, b: Capture, c: Capture)
    ensures Merge(Merge(a, b), c) == Merge(a, Merge(b, c))
  {
    UnionAssociative(c.captures, b.captures, a.captures);
    UnionAssociative(c.bindings, b.bindings, a.bindings);
    UnionAssociative(c.defaults, b.defaults, a.defaults);
  }

  lemma UnionAssociative<K, V>(x: map<K, V>, y: map<K, V>, z: map<K, V>)
    ensures x + (y + z) == (x + y) + z
  {
  }
}
