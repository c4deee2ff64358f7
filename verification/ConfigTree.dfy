/** Plain configuration trees, Python equality on them, and the merge that gives them meaning. */
module ConfigTree {
  import opened Prelude

  datatype Value = Null | Bool(b: bool) | Int(i: int) | Float(r: real) | Str(s: string)

  datatype Tree = Leaf(value: Value) | List(items: seq<Tree>) | Map(entries: map<string, Tree>)

  type Entries = map<string, Tree>

  const OVERRIDE := "_override_"

  // ---- Python equality and truth -----------------------------------------------------------

  predicate IsNumber(v: Value) { v.Bool? || v.Int? || v.Float? }

  function Number(v: Value): real
    requires IsNumber(v)
  {
    match v
    case Bool(b) => if b then 1.0 else 0.0
    case Int(i) => i as real
    case Float(r) => r
  }

  /** `==` on scalars: booleans, integers and floats compare by numeric value. */
  predicate PyEqValue(a: Value, b: Value)
  {
    if IsNumber(a) && IsNumber(b) then Number(a) == Number(b) else a == b
  }

  /** `==` on containers: element by element, dictionaries regardless of order. */
  predicate PyEq(a: Tree, b: Tree)
  {
    match (a, b)
    case (Leaf(v), Leaf(w)) => PyEqValue(v, w)
    case (List(xs), List(ys)) => |xs| == |ys| && forall i :: 0 <= i < |xs| ==> PyEq(xs[i], ys[i])
    case (Map(m), Map(n)) => m.Keys == n.Keys && forall k :: k in m ==> PyEq(m[k], n[k])
    case _ => false
  }

  predicate IsEmpty(t: Tree)
  {
    t == List([]) || t == Map(map[])
  }

  predicate Truthy(t: Tree)
  {
    match t
    case Leaf(Null) => false
    case Leaf(Bool(b)) => b
    case Leaf(Int(i)) => i != 0
    case Leaf(Float(r)) => r != 0.0
    case Leaf(Str(s)) => s != ""
    case List(_) => !IsEmpty(t)
    case Map(_) => !IsEmpty(t)
  }

  lemma {:induction false} PyEqReflexive(t: Tree)
    ensures PyEq(t, t)
  {
    match t
    case Leaf(_) =>
    case List(xs) =>
      forall i | 0 <= i < |xs| ensures PyEq(xs[i], xs[i]) { PyEqReflexive(xs[i]); }
    case Map(m) =>
      forall k | k in m ensures PyEq(m[k], m[k]) { PyEqReflexive(m[k]); }
  }

  /** The false values: null, false, zero, the empty string and the empty containers. */
  lemma FalsyIff(t: Tree)
    ensures !Truthy(t) <==>
      t in {Leaf(Null), Leaf(Bool(false)), Leaf(Int(0)), Leaf(Float(0.0)), Leaf(Str("")), List([]), Map(map[])}
  {
  }

  // ---- what is at a path -------------------------------------------------------------------

  /** What a tree has at a path of keys. */
  datatype Node = Nothing | Section | Holds(tree: Tree)

  function NodeAt(t: Tree, path: seq<string>): Node
    decreases |path|
  {
    if path == [] then (if t.Map? then Section else Holds(t))
    else if t.Map? && path[0] in t.entries then NodeAt(t.entries[path[0]], path[1..])
    else Nothing
  }

  lemma NodeBelow(m: Entries, k: string, rest: seq<string>)
    ensures NodeAt(Map(m), [k] + rest) == if k in m then NodeAt(m[k], rest) else Nothing
  {
    assert ([k] + rest)[1..] == rest;
  }

  /** A tree is determined by what it has at its paths. */
  lemma {:induction false} NodesDetermineTree(a: Tree, b: Tree)
    requires forall path :: NodeAt(a, path) == NodeAt(b, path)
    ensures a == b
    decreases a
  {
    assert NodeAt(a, []) == NodeAt(b, []);
    if a.Map? {
      var m, n := a.entries, b.entries;
      forall k
        ensures k in m <==> k in n
        ensures k in m && k in n ==> m[k] == n[k]
      {
        NodeBelow(m, k, []);
        NodeBelow(n, k, []);
        assert NodeAt(a, [k] + []) == NodeAt(b, [k] + []);
        if k in m && k in n {
          forall rest
            ensures NodeAt(m[k], rest) == NodeAt(n[k], rest)
          {
            NodeBelow(m, k, rest);
            NodeBelow(n, k, rest);
            assert NodeAt(a, [k] + rest) == NodeAt(b, [k] + rest);
          }
          NodesDetermineTree(m[k], n[k]);
        }
      }
      assert m == n;
    }
  }

  /** A value above the path, so that nothing can be below it. */
  predicate Cuts(t: Tree, path: seq<string>)
    decreases |path|
  {
    path != [] && (!t.Map? || (path[0] in t.entries && Cuts(t.entries[path[0]], path[1..])))
  }

  /** What merging a tree on top of another decides at a path, if anything. */
  function Rules(t: Tree, path: seq<string>): Option<Node>
  {
    if NodeAt(t, path) != Nothing then Some(NodeAt(t, path))
    else if Cuts(t, path) then Some(Nothing)
    else None
  }

  // ---- merge -------------------------------------------------------------------------------

  /** Maps merge key by key; anything else is replaced by the later tree. */
  function Merge(a: Tree, b: Tree): Tree
    decreases b
  {
    if a.Map? && b.Map? then
      Map(map k | k in a.entries.Keys + b.entries.Keys ::
        if k in a.entries && k in b.entries then Merge(a.entries[k], b.entries[k])
        else if k in b.entries then b.entries[k]
        else a.entries[k])
    else b
  }

  /** At every path the later tree decides, and where it decides nothing the earlier one stays. */
  lemma {:induction false} MergeNodes(a: Tree, b: Tree, path: seq<string>)
    ensures NodeAt(Merge(a, b), path) == if Rules(b, path).Some? then Rules(b, path).value else NodeAt(a, path)
    decreases |path|
  {
    if path != [] && a.Map? && b.Map? && path[0] in a.entries && path[0] in b.entries {
      MergeNodes(a.entries[path[0]], b.entries[path[0]], path[1..]);
    }
  }

  predicate HasOverride(m: Entries)
  {
    OVERRIDE in m && Truthy(m[OVERRIDE])
  }

  /** A section that replaces its inherited counterpart instead of merging with it. */
  predicate IsOverriding(t: Tree)
  {
    t.Map? && HasOverride(t.entries)
  }

  function WithoutMarker(t: Tree): Tree
  {
    if IsOverriding(t) then Map(t.entries - {OVERRIDE}) else t
  }

  /** `merge_with_override` key by key: only top-level sections honour the marker. */
  function OverlayAt(base: Entries, over: Entries, k: string): Tree
    requires k in base.Keys + over.Keys
  {
    if k !in over then base[k]
    else if IsOverriding(over[k]) || k !in base then WithoutMarker(over[k])
    else Merge(base[k], over[k])
  }

  function Overlay(base: Entries, over: Entries): Entries
  {
    map k | k in base.Keys + over.Keys :: OverlayAt(base, over, k)
  }

  /** The overriding config once the markers of every section outside `keys` are popped. */
  function Stripped(over: Entries, keys: set<string>): Entries
  {
    map k | k in over :: if k in keys then over[k] else WithoutMarker(over[k])
  }

  /** The base once the sections overridden by `over` outside `keys` are popped. */
  function Trimmed(base: Entries, over: Entries, keys: set<string>): Entries
  {
    map k | k in base && !(k in over && k !in keys && IsOverriding(over[k])) :: base[k]
  }

  lemma StrippedMerge(base: Entries, over: Entries)
    ensures Merge(Map(Trimmed(base, over, {})), Map(Stripped(over, {}))) == Map(Overlay(base, over))
  {
    var merged := Merge(Map(Trimmed(base, over, {})), Map(Stripped(over, {}))).entries;
    assert merged.Keys == Overlay(base, over).Keys;
    forall k | k in merged
      ensures merged[k] == Overlay(base, over)[k]
    {
    }
  }

  /**
   What overlaying a config decides at a path: all of a section with a true marker is its own, the marker itself gone;
   elsewhere it decides what merging does.
   */
  function Settles(over: Entries, path: seq<string>): Option<Node>
    requires path != []
  {
    var k := path[0];
    if k in over && over[k].Map? && OVERRIDE in over[k].entries && Truthy(over[k].entries[OVERRIDE]) then
      Some(if |path| > 1 && path[1] == OVERRIDE then Nothing else NodeAt(over[k], path[1..]))
    else Rules(Map(over), path)
  }

  /** Nothing of the base is left in an overriding section; elsewhere the base stays where nothing is decided. */
  lemma OverlaySettles(base: Entries, over: Entries, path: seq<string>)
    requires path != []
    ensures NodeAt(Map(Overlay(base, over)), path)
      == if Settles(over, path).Some? then Settles(over, path).value else NodeAt(Map(base), path)
  {
    var k, rest := path[0], path[1..];
    if k in base.Keys + over.Keys {
      assert NodeAt(Map(Overlay(base, over)), path) == NodeAt(OverlayAt(base, over, k), rest);
      if k in over && k in base && !IsOverriding(over[k]) {
        MergeNodes(base[k], over[k], rest);
      }
    }
  }

  /** The loop pops markers from the overriding tree and overridden keys from the base, then merges what is left. */
  method MergeWithOverride(baseConfig: Entries, overrideConfig: Entries) returns (merged: Entries)
    ensures merged == Overlay(baseConfig, overrideConfig)
    ensures forall path :: path != [] ==>
      NodeAt(Map(merged), path) ==
        if Settles(overrideConfig, path).Some? then Settles(overrideConfig, path).value else NodeAt(Map(baseConfig), path)
  {
    var base, over := baseConfig, overrideConfig;
    var keys := over.Keys;
    assert base == Trimmed(baseConfig, overrideConfig, keys);
    assert over == Stripped(overrideConfig, keys);
    while keys != {}
      invariant keys <= overrideConfig.Keys
      invariant base == Trimmed(baseConfig, overrideConfig, keys)
      invariant over == Stripped(overrideConfig, keys)
      decreases |keys|
    {
      var key :| key in keys;
      if over[key].Map? && HasOverride(over[key].entries) {
        over := over[key := Map(over[key].entries - {OVERRIDE})];
        if key in base {
          base := base - {key};
        }
      }
      keys := keys - {key};
      assert base == Trimmed(baseConfig, overrideConfig, keys);
      assert over == Stripped(overrideConfig, keys);
    }
    merged := Merge(Map(base), Map(over)).entries;
    StrippedMerge(baseConfig, overrideConfig);
    forall path | path != []
      ensures NodeAt(Map(merged), path) ==
        if Settles(overrideConfig, path).Some? then Settles(overrideConfig, path).value else NodeAt(Map(baseConfig), path)
    {
      OverlaySettles(baseConfig, overrideConfig, path);
    }
  }

  // ---- trees without markers ---------------------------------------------------------------

  /** No map anywhere below, outside lists, carries a true marker. */
  predicate NoOverride(t: Tree)
  {
    t.Map? ==> !HasOverride(t.entries) && forall k :: k in t.entries ==> NoOverride(t.entries[k])
  }

  /** No top-level section carries a true marker. */
  predicate NoTopMarker(m: Entries)
  {
    forall k :: k in m ==> !IsOverriding(m[k])
  }

  /** Without markers, overlaying is merging. */
  lemma OverlayIsMerge(base: Entries, over: Entries)
    requires NoTopMarker(over)
    ensures Map(Overlay(base, over)) == Merge(Map(base), Map(over))
  {
  }

  lemma MergeEmpty(t: Tree)
    requires t.Map?
    ensures Merge(t, Map(map[])) == t
    ensures Merge(Map(map[]), t) == t
  {
    assert Merge(t, Map(map[])).entries == t.entries;
    assert Merge(Map(map[]), t).entries == t.entries;
  }
}
