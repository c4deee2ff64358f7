/** The flattened view two configs are compared in, and when it tells them apart. */
module ConfigFlatten {
  import opened Prelude
  import opened ConfigTree

  /** One step down a tree. */
  datatype Step = Key(key: string) | Index(index: nat)

  type Route = seq<Step>

  /** How one step extends a rendered prefix. */
  function Extend(prefix: string, step: Step): string
  {
    match step
    case Key(k) => if prefix == "" then k else prefix + "." + k
    case Index(i) => prefix + "[" + Decimal(i) + "]"
  }

  /** `_flatten`: every leaf under its rendered path. */
  ghost function Flatten(t: Tree, prefix: string): set<(string, Value)>
    decreases t
  {
    match t
    case Leaf(v) => {(prefix, v)}
    case List(xs) => set i, e | 0 <= i < |xs| && e in Flatten(xs[i], Extend(prefix, Index(i))) :: e
    case Map(m) => set k, e | k in m.Keys && e in Flatten(m[k], Extend(prefix, Key(k))) :: e
  }

  /** The leaf at a route. */
  function LeafAt(t: Tree, route: Route): Option<Value>
    decreases |route|
  {
    if route == [] then (if t.Leaf? then Some(t.value) else None)
    else
      match (t, route[0])
      case (List(xs), Index(i)) => if i < |xs| then LeafAt(xs[i], route[1..]) else None
      case (Map(m), Key(k)) => if k in m then LeafAt(m[k], route[1..]) else None
      case _ => None
  }

  function Render(prefix: string, route: Route): string
    decreases |route|
  {
    if route == [] then prefix else Render(Extend(prefix, route[0]), route[1..])
  }

  /** The flattened pairs are exactly the leaves at their rendered routes. */
  lemma {:induction false} FlattenHasLeaf(t: Tree, prefix: string, route: Route)
    requires LeafAt(t, route).Some?
    ensures (Render(prefix, route), LeafAt(t, route).value) in Flatten(t, prefix)
    decreases |route|
  {
    if route != [] {
      var next := Extend(prefix, route[0]);
      match t
      case List(xs) =>
        FlattenHasLeaf(xs[route[0].index], next, route[1..]);
      case Map(m) =>
        FlattenHasLeaf(m[route[0].key], next, route[1..]);
    }
  }

  lemma {:induction false} FlattenRoute(t: Tree, prefix: string, e: (string, Value)) returns (route: Route)
    requires e in Flatten(t, prefix)
    ensures LeafAt(t, route) == Some(e.1) && Render(prefix, route) == e.0
    decreases t
  {
    match t
    case Leaf(v) => route := [];
    case List(xs) =>
      var i :| 0 <= i < |xs| && e in Flatten(xs[i], Extend(prefix, Index(i)));
      var rest := FlattenRoute(xs[i], Extend(prefix, Index(i)), e);
      route := [Index(i)] + rest;
      assert route[1..] == rest;
    case Map(m) =>
      var k :| k in m.Keys && e in Flatten(m[k], Extend(prefix, Key(k)));
      var rest := FlattenRoute(m[k], Extend(prefix, Key(k)), e);
      route := [Key(k)] + rest;
      assert route[1..] == rest;
  }

  // ---- clean trees ---------------------------------------------------------------------------

  predicate CleanKey(k: string)
  {
    k != "" && forall i :: 0 <= i < |k| ==> k[i] != '.' && k[i] != '['
  }

  /** Clean keys at every depth. */
  predicate CleanKeys(t: Tree)
  {
    match t
    case Leaf(_) => true
    case List(xs) => forall i :: 0 <= i < |xs| ==> CleanKeys(xs[i])
    case Map(m) => forall k :: k in m ==> CleanKey(k) && CleanKeys(m[k])
  }

  predicate CleanRoute(route: Route)
  {
    forall i :: 0 <= i < |route| && route[i].Key? ==> CleanKey(route[i].key)
  }

  lemma {:induction false} CleanLeafRoute(t: Tree, route: Route)
    requires LeafAt(t, route).Some? && CleanKeys(t)
    ensures CleanRoute(route)
    decreases |route|
  {
    if route != [] {
      match t {
        case List(xs) => CleanLeafRoute(xs[route[0].index], route[1..]);
        case Map(m) => CleanLeafRoute(m[route[0].key], route[1..]);
      }
      assert forall i :: 1 <= i < |route| ==> route[i] == route[1..][i - 1];
    }
  }

  // ---- rendering is injective on clean routes --------------------------------------------------

  /** What a step adds after a non-empty prefix. */
  function Piece(step: Step): string
  {
    match step
    case Key(k) => "." + k
    case Index(i) => "[" + Decimal(i) + "]"
  }

  /** What a route adds after a non-empty prefix. */
  function Suffix(route: Route): string
  {
    if route == [] then ""
    else Piece(route[0]) + Suffix(route[1..])
  }

  lemma ExtendByPiece(prefix: string, step: Step)
    requires prefix != ""
    ensures Extend(prefix, step) == prefix + Piece(step)
  {
    match step
    case Key(k) => assert prefix + "." + k == prefix + ("." + k);
    case Index(i) =>
      var d := Decimal(i);
      hide Decimal;
      assert prefix + "[" + d + "]" == prefix + ("[" + d + "]");
  }

  lemma {:induction false} RenderIsPrefixed(prefix: string, route: Route)
    requires prefix != ""
    ensures Render(prefix, route) == prefix + Suffix(route)
    decreases |route|
  {
    if route == [] {
      assert prefix + "" == prefix;
    } else {
      var piece, rest := Piece(route[0]), Suffix(route[1..]);
      assert Suffix(route) == piece + rest;
      assert Render(prefix, route) == Render(Extend(prefix, route[0]), route[1..]);
      hide Extend, Suffix, Render, Piece;
      ExtendByPiece(prefix, route[0]);
      RenderIsPrefixed(prefix + piece, route[1..]);
      assert prefix + piece + rest == prefix + (piece + rest);
    }
  }

  predicate IsStop(c: char) { c == '.' || c == '[' }

  lemma WordNotShorter(k: string, l: string, x: string, y: string)
    requires k + x == l + y
    requires forall i :: 0 <= i < |l| ==> !IsStop(l[i])
    requires x == "" || IsStop(x[0])
    ensures |k| >= |l|
  {
    var s := k + x;
    assert forall i :: 0 <= i < |l| ==> s[i] == l[i];
    assert x != "" ==> s[|k|] == x[0];
  }

  /** Two words free of stops, each followed by nothing or a stop, end at the same place. */
  lemma SameWord(k: string, l: string, x: string, y: string)
    requires k + x == l + y
    requires forall i :: 0 <= i < |k| ==> !IsStop(k[i])
    requires forall i :: 0 <= i < |l| ==> !IsStop(l[i])
    requires (x == "" || IsStop(x[0])) && (y == "" || IsStop(y[0]))
    ensures k == l && x == y
  {
    WordNotShorter(k, l, x, y);
    WordNotShorter(l, k, y, x);
    assert k == (k + x)[..|k|] && l == (l + y)[..|l|];
    assert x == (k + x)[|k|..] && y == (l + y)[|l|..];
  }

  lemma SameIndex(i: nat, j: nat, x: string, y: string)
    requires Decimal(i) + "]" + x == Decimal(j) + "]" + y
    ensures i == j && x == y
  {
    var a, b := Decimal(i), Decimal(j);
    hide Decimal, NumberOf;
    DecimalRoundTrip(i);
    DecimalRoundTrip(j);
    var s := a + "]" + x;
    assert s[|a|] == ']' && s[|b|] == ']';
    assert forall k :: 0 <= k < |a| ==> s[k] == a[k] && IsDigit(a[k]);
    assert forall k :: 0 <= k < |b| ==> s[k] == b[k] && IsDigit(b[k]);
    assert a == s[..|a|] && b == s[..|b|];
    DecimalInjective(i, j);
    assert x == s[|a| + 1..] && y == s[|b| + 1..];
  }

  lemma SuffixStart(route: Route)
    ensures route == [] <==> Suffix(route) == ""
    ensures route != [] ==> Suffix(route)[0] == if route[0].Key? then '.' else '['
  {
  }

  lemma SuffixStep(p: Route, q: Route)
    requires CleanRoute(p) && CleanRoute(q) && Suffix(p) == Suffix(q) && p != [] && q != []
    ensures p[0] == q[0] && Suffix(p[1..]) == Suffix(q[1..])
  {
    SuffixStart(p);
    SuffixStart(q);
    SuffixStart(p[1..]);
    SuffixStart(q[1..]);
    var x, y := Suffix(p[1..]), Suffix(q[1..]);
    if p[0].Key? {
      SameKeyStep(p[0].key, q[0].key, x, y);
    } else {
      SameIndexStep(p[0].index, q[0].index, x, y);
    }
  }

  lemma SameKeyStep(k: string, l: string, x: string, y: string)
    requires "." + k + x == "." + l + y && CleanKey(k) && CleanKey(l)
    requires (x == "" || IsStop(x[0])) && (y == "" || IsStop(y[0]))
    ensures k == l && x == y
  {
    assert k + x == ("." + k + x)[1..] && l + y == ("." + l + y)[1..];
    SameWord(k, l, x, y);
  }

  lemma SameIndexStep(i: nat, j: nat, x: string, y: string)
    requires "[" + Decimal(i) + "]" + x == "[" + Decimal(j) + "]" + y
    ensures i == j && x == y
  {
    assert Decimal(i) + "]" + x == ("[" + Decimal(i) + "]" + x)[1..];
    assert Decimal(j) + "]" + y == ("[" + Decimal(j) + "]" + y)[1..];
    SameIndex(i, j, x, y);
  }

  lemma {:induction false} SuffixInjective(p: Route, q: Route)
    requires CleanRoute(p) && CleanRoute(q) && Suffix(p) == Suffix(q)
    ensures p == q
    decreases |p|
  {
    SuffixStart(p);
    SuffixStart(q);
    if p != [] {
      SuffixStep(p, q);
      CleanTail(p);
      CleanTail(q);
      SuffixInjective(p[1..], q[1..]);
      assert p == [p[0]] + p[1..] && q == [q[0]] + q[1..];
    }
  }

  lemma CleanTail(p: Route)
    requires p != [] && CleanRoute(p)
    ensures CleanRoute(p[1..])
  {
  }

  /** From the root of a mapping, two clean routes never render alike. */
  lemma RenderInjective(p: Route, q: Route)
    requires p != [] && q != [] && p[0].Key? && q[0].Key?
    requires CleanRoute(p) && CleanRoute(q) && Render("", p) == Render("", q)
    ensures p == q
  {
    var k, l := p[0].key, q[0].key;
    assert CleanKey(k) && CleanKey(l);
    RenderIsPrefixed(k, p[1..]);
    RenderIsPrefixed(l, q[1..]);
    SuffixStart(p[1..]);
    SuffixStart(q[1..]);
    SameWord(k, l, Suffix(p[1..]), Suffix(q[1..]));
    CleanTail(p);
    CleanTail(q);
    SuffixInjective(p[1..], q[1..]);
    assert p == [p[0]] + p[1..] && q == [q[0]] + q[1..];
  }

  // ---- trees with the same leaves --------------------------------------------------------------

  /** Both have a leaf at the route, or neither; and Python calls the two values equal. */
  ghost predicate SameLeaf(a: Tree, b: Tree, route: Route)
  {
    match (LeafAt(a, route), LeafAt(b, route))
    case (None, None) => true
    case (Some(v), Some(w)) => PyEqValue(v, w)
    case _ => false
  }

  ghost predicate SameLeaves(a: Tree, b: Tree)
  {
    forall route :: SameLeaf(a, b, route)
  }

  lemma {:induction false} EqualTreesShareLeaves(a: Tree, b: Tree, route: Route)
    requires PyEq(a, b)
    ensures SameLeaf(a, b, route)
    decreases |route|
  {
    if route != [] {
      match (a, b, route[0]) {
        case (List(xs), List(ys), Index(i)) =>
          if i < |xs| { EqualTreesShareLeaves(xs[i], ys[i], route[1..]); }
        case (Map(m), Map(n), Key(k)) =>
          if k in m { EqualTreesShareLeaves(m[k], n[k], route[1..]); }
        case _ =>
      }
    }
  }

  lemma LeafBelowKey(m: Entries, k: string, rest: Route)
    ensures LeafAt(Map(m), [Key(k)] + rest) == if k in m then LeafAt(m[k], rest) else None
  {
    assert ([Key(k)] + rest)[1..] == rest;
  }

  lemma LeafBelowIndex(xs: seq<Tree>, i: nat, rest: Route)
    ensures LeafAt(List(xs), [Index(i)] + rest) == if i < |xs| then LeafAt(xs[i], rest) else None
  {
    assert ([Index(i)] + rest)[1..] == rest;
  }

  lemma SameLeavesBelowKey(m: Entries, n: Entries, k: string)
    requires SameLeaves(Map(m), Map(n)) && k in m && k in n
    ensures SameLeaves(m[k], n[k])
  {
    forall rest
      ensures SameLeaf(m[k], n[k], rest)
    {
      LeafBelowKey(m, k, rest);
      LeafBelowKey(n, k, rest);
      assert SameLeaf(Map(m), Map(n), [Key(k)] + rest);
    }
  }

  lemma SameLeavesBelowIndex(xs: seq<Tree>, ys: seq<Tree>, i: nat)
    requires SameLeaves(List(xs), List(ys)) && i < |xs| && i < |ys|
    ensures SameLeaves(xs[i], ys[i])
  {
    forall rest
      ensures SameLeaf(xs[i], ys[i], rest)
    {
      LeafBelowIndex(xs, i, rest);
      LeafBelowIndex(ys, i, rest);
      assert SameLeaf(List(xs), List(ys), [Index(i)] + rest);
    }
  }

  lemma LeafShared(a: Tree, b: Tree, route: Route)
    requires SameLeaves(a, b)
    ensures LeafAt(a, route).Some? <==> LeafAt(b, route).Some?
  {
    assert SameLeaf(a, b, route);
  }

  // ---- what is left of a tree in its leaves ------------------------------------------------------

  const NOTHING: Tree := Map(map[])

  predicate HasLeaf(t: Tree)
  {
    match t
    case Leaf(_) => true
    case List(xs) => exists i :: 0 <= i < |xs| && HasLeaf(xs[i])
    case Map(m) => exists k :: k in m && HasLeaf(m[k])
  }

  /** The length of a list up to its last item with a leaf. */
  function Extent(xs: seq<Tree>, n: nat): (e: nat)
    requires n <= |xs|
    ensures e <= n && (e > 0 ==> HasLeaf(xs[e - 1])) && forall i :: e <= i < n ==> !HasLeaf(xs[i])
  {
    if n == 0 then 0 else if HasLeaf(xs[n - 1]) then n else Extent(xs, n - 1)
  }

  /**
   The tree without its leafless parts: keys that lead to no leaf go, as do list items after the last one
   with a leaf; an item before it must keep its place and becomes an empty map.
   */
  function Core(t: Tree): Tree
  {
    if !HasLeaf(t) then NOTHING
    else
      match t
      case Leaf(_) => t
      case List(xs) => List(seq(Extent(xs, |xs|), i requires 0 <= i < Extent(xs, |xs|) => Core(xs[i])))
      case Map(m) => Map(map k | k in m && HasLeaf(m[k]) :: Core(m[k]))
  }

  /** A tree with a leaf, and with nothing to spare. */
  predicate TightNode(t: Tree)
  {
    match t
    case Leaf(_) => true
    case List(xs) =>
      xs != [] && TightNode(xs[|xs| - 1]) && forall i :: 0 <= i < |xs| ==> xs[i] == NOTHING || TightNode(xs[i])
    case Map(m) => m != map[] && forall k :: k in m ==> TightNode(m[k])
  }

  lemma {:induction false} CoreIsTight(t: Tree)
    requires HasLeaf(t)
    ensures TightNode(Core(t))
  {
    match t
    case Leaf(_) =>
    case List(xs) =>
      var n := Extent(xs, |xs|);
      var items := Core(t).items;
      assert n > 0 by { var i :| 0 <= i < |xs| && HasLeaf(xs[i]); }
      forall i | 0 <= i < n
        ensures items[i] == NOTHING || TightNode(items[i])
      {
        assert items[i] == Core(xs[i]);
        if HasLeaf(xs[i]) {
          CoreIsTight(xs[i]);
        } else {
          assert Core(xs[i]) == NOTHING;
        }
      }
      CoreIsTight(xs[n - 1]);
    case Map(m) =>
      var entries := Core(t).entries;
      var k :| k in m && HasLeaf(m[k]);
      assert k in entries;
      forall k | k in entries
        ensures TightNode(entries[k])
      {
        CoreIsTight(m[k]);
      }
  }

  lemma {:induction false} NoLeafBelow(t: Tree, route: Route)
    requires LeafAt(t, route).Some?
    ensures HasLeaf(t)
    decreases |route|
  {
    if route != [] {
      match t
      case List(xs) => NoLeafBelow(xs[route[0].index], route[1..]);
      case Map(m) => NoLeafBelow(m[route[0].key], route[1..]);
    }
  }

  /** The core has the same leaves at the same routes. */
  lemma {:induction false} CoreKeepsLeaves(t: Tree, route: Route)
    ensures LeafAt(Core(t), route) == LeafAt(t, route)
    decreases |route|
  {
    if !HasLeaf(t) {
      if LeafAt(t, route).Some? { NoLeafBelow(t, route); }
    } else if route != [] {
      match (t, route[0])
      case (List(xs), Index(i)) =>
        if i < |xs| {
          CoreKeepsLeaves(xs[i], route[1..]);
          if i >= Extent(xs, |xs|) && LeafAt(xs[i], route[1..]).Some? { NoLeafBelow(xs[i], route[1..]); }
        }
      case (Map(m), Key(k)) =>
        if k in m {
          CoreKeepsLeaves(m[k], route[1..]);
          if LeafAt(m[k], route[1..]).Some? { NoLeafBelow(m[k], route[1..]); }
        }
      case _ =>
    }
  }

  lemma {:induction false} TightNodeHasLeaf(t: Tree) returns (route: Route)
    requires TightNode(t)
    ensures LeafAt(t, route).Some?
  {
    match t
    case Leaf(_) => route := [];
    case List(xs) =>
      var rest := TightNodeHasLeaf(xs[|xs| - 1]);
      route := [Index(|xs| - 1)] + rest;
      assert route[1..] == rest;
    case Map(m) =>
      assert |m| > 0 && |m.Keys| > 0;
      var k :| k in m.Keys;
      var rest := TightNodeHasLeaf(m[k]);
      route := [Key(k)] + rest;
      assert route[1..] == rest;
  }

  lemma NothingHasNoLeaf(route: Route)
    ensures LeafAt(NOTHING, route) == None
  {
  }

  lemma SameExtent(xs: seq<Tree>, ys: seq<Tree>)
    requires SameLeaves(List(xs), List(ys)) && TightNode(List(xs)) && TightNode(List(ys))
    ensures |xs| == |ys|
  {
    if |xs| < |ys| {
      NotLonger(xs, ys);
    } else if |ys| < |xs| {
      forall route ensures SameLeaf(List(ys), List(xs), route) { SameLeafSymmetric(List(xs), List(ys), route); }
      NotLonger(ys, xs);
    }
  }

  lemma SameLeafSymmetric(a: Tree, b: Tree, route: Route)
    requires SameLeaves(a, b)
    ensures SameLeaf(b, a, route)
  {
    assert SameLeaf(a, b, route);
  }

  lemma NotLonger(xs: seq<Tree>, ys: seq<Tree>)
    requires SameLeaves(List(xs), List(ys)) && TightNode(List(ys))
    ensures |ys| <= |xs|
  {
    var n := |ys| - 1;
    var rest := TightNodeHasLeaf(ys[n]);
    LeafBelowIndex(xs, n, rest);
    LeafBelowIndex(ys, n, rest);
    LeafShared(List(xs), List(ys), [Index(n)] + rest);
  }

  lemma SameKeys(m: Entries, n: Entries)
    requires SameLeaves(Map(m), Map(n)) && TightNode(Map(m)) && TightNode(Map(n))
    ensures m.Keys == n.Keys
  {
    forall k | k in m.Keys + n.Keys
      ensures k in m && k in n
    {
      var rest := TightNodeHasLeaf(if k in m then m[k] else n[k]);
      LeafBelowKey(m, k, rest);
      LeafBelowKey(n, k, rest);
      LeafShared(Map(m), Map(n), [Key(k)] + rest);
    }
  }

  /** Tight trees with the same leaves are equal. */
  lemma {:induction false} SharedLeavesMakeEqualTrees(a: Tree, b: Tree)
    requires TightNode(a) && TightNode(b) && SameLeaves(a, b)
    ensures PyEq(a, b)
    decreases a
  {
    SameShape(a, b);
    match a
    case Leaf(_) =>
      assert SameLeaf(a, b, []);
    case List(xs) =>
      SameExtent(xs, b.items);
      forall i | 0 <= i < |xs|
        ensures PyEq(xs[i], b.items[i])
      {
        SameLeavesBelowIndex(xs, b.items, i);
        ItemsAreEqual(xs[i], b.items[i]);
        if xs[i] != NOTHING && b.items[i] != NOTHING { SharedLeavesMakeEqualTrees(xs[i], b.items[i]); }
      }
    case Map(m) =>
      SameKeys(m, b.entries);
      forall k | k in m
        ensures PyEq(m[k], b.entries[k])
      {
        SameLeavesBelowKey(m, b.entries, k);
        SharedLeavesMakeEqualTrees(m[k], b.entries[k]);
      }
  }

  lemma SameShape(a: Tree, b: Tree)
    requires TightNode(a) && TightNode(b) && SameLeaves(a, b)
    ensures (a.Leaf? <==> b.Leaf?) && (a.List? <==> b.List?)
  {
    var r := TightNodeHasLeaf(a);
    var s := TightNodeHasLeaf(b);
    LeafShared(a, b, r);
    LeafShared(a, b, s);
    LeafShared(a, b, []);
  }

  lemma ItemsAreEqual(a: Tree, b: Tree)
    requires (a == NOTHING || TightNode(a)) && (b == NOTHING || TightNode(b)) && SameLeaves(a, b)
    ensures a == NOTHING <==> b == NOTHING
  {
    if a != NOTHING {
      var r := TightNodeHasLeaf(a);
      LeafShared(a, b, r);
      NothingHasNoLeaf(r);
    } else if b != NOTHING {
      var r := TightNodeHasLeaf(b);
      LeafShared(a, b, r);
      NothingHasNoLeaf(r);
    }
  }

  /** Two trees have the same leaves exactly when Python calls their cores equal. */
  lemma SameLeavesIffCoresEqual(a: Tree, b: Tree)
    ensures SameLeaves(a, b) <==> PyEq(Core(a), Core(b))
  {
    forall route
      ensures SameLeaf(a, b, route) <==> SameLeaf(Core(a), Core(b), route)
    {
      CoreKeepsLeaves(a, route);
      CoreKeepsLeaves(b, route);
    }
    if SameLeaves(a, b) {
      assert SameLeaves(Core(a), Core(b));
      if HasLeaf(a) { CoreIsTight(a); }
      if HasLeaf(b) { CoreIsTight(b); }
      ItemsAreEqual(Core(a), Core(b));
      if Core(a) == NOTHING {
        PyEqReflexive(NOTHING);
      } else {
        SharedLeavesMakeEqualTrees(Core(a), Core(b));
      }
    }
    if PyEq(Core(a), Core(b)) {
      forall route
        ensures SameLeaf(a, b, route)
      {
        EqualTreesShareLeaves(Core(a), Core(b), route);
      }
    }
  }

  /** No empty container, this one included. */
  predicate NoEmptyPart(t: Tree)
  {
    match t
    case Leaf(_) => true
    case List(xs) => xs != [] && forall i :: 0 <= i < |xs| ==> NoEmptyPart(xs[i])
    case Map(m) => m != map[] && forall k :: k in m ==> NoEmptyPart(m[k])
  }

  /** A tree without empty containers is its own core. */
  lemma {:induction false} CoreOfFull(t: Tree)
    requires NoEmptyPart(t)
    ensures HasLeaf(t) && Core(t) == t
  {
    match t
    case Leaf(_) =>
    case List(xs) =>
      forall i | 0 <= i < |xs| ensures HasLeaf(xs[i]) && Core(xs[i]) == xs[i] { CoreOfFull(xs[i]); }
      assert HasLeaf(xs[|xs| - 1]);
      assert Core(t).items == xs;
    case Map(m) =>
      forall k | k in m ensures HasLeaf(m[k]) && Core(m[k]) == m[k] { CoreOfFull(m[k]); }
      assert |m| > 0 && |m.Keys| > 0;
      var k :| k in m.Keys;
      assert HasLeaf(m[k]);
      assert Core(t).entries == m;
  }

  // ---- the comparison ------------------------------------------------------------------------

  /** The flattened keys. */
  ghost function Names(pairs: set<(string, Value)>): set<string>
  {
    set e | e in pairs :: e.0
  }

  /** Each name has one value: no two leaves collide in the flattened dictionary. */
  ghost predicate IsDictionary(pairs: set<(string, Value)>)
  {
    forall e, f :: e in pairs && f in pairs && e.0 == f.0 ==> e == f
  }

  /** A route at which one of the two configs has a leaf. */
  ghost predicate IsLeafRoute(left: Entries, right: Entries, route: Route)
  {
    LeafAt(Map(left), route).Some? || LeafAt(Map(right), route).Some?
  }

  /** No two leaf routes of the two configs render alike. */
  ghost predicate NoClash(left: Entries, right: Entries)
  {
    forall p, q :: IsLeafRoute(left, right, p) && IsLeafRoute(left, right, q) && Render("", p) == Render("", q) ==> p == q
  }

  lemma LeafRouteFromRoot(m: Entries, route: Route)
    requires LeafAt(Map(m), route).Some? && CleanKeys(Map(m))
    ensures route != [] && route[0].Key? && CleanRoute(route)
  {
    CleanLeafRoute(Map(m), route);
  }

  /** Clean keys never clash. */
  lemma CleanKeysDoNotClash(left: Entries, right: Entries)
    requires CleanKeys(Map(left)) && CleanKeys(Map(right))
    ensures NoClash(left, right)
  {
    forall p, q | IsLeafRoute(left, right, p) && IsLeafRoute(left, right, q) && Render("", p) == Render("", q)
      ensures p == q
    {
      LeafRouteFromRoot(if LeafAt(Map(left), p).Some? then left else right, p);
      LeafRouteFromRoot(if LeafAt(Map(left), q).Some? then left else right, q);
      RenderInjective(p, q);
    }
  }

  /** The flattened view of a config without clashes is a dictionary. */
  lemma FlattenIsDictionary(m: Entries, other: Entries)
    requires NoClash(m, other) || NoClash(other, m)
    ensures IsDictionary(Flatten(Map(m), ""))
  {
    forall e, f | e in Flatten(Map(m), "") && f in Flatten(Map(m), "") && e.0 == f.0
      ensures e == f
    {
      var p := FlattenRoute(Map(m), "", e);
      var q := FlattenRoute(Map(m), "", f);
      assert IsLeafRoute(m, other, p) && IsLeafRoute(m, other, q) && IsLeafRoute(other, m, p) && IsLeafRoute(other, m, q);
    }
  }

  /** What `compare` reports about two expanded configs. */
  datatype Report = Report(added: set<string>, removed: set<string>, changed: set<string>)

  ghost function Compare(left: Entries, right: Entries): Report
  {
    var lf, rf := Flatten(Map(left), ""), Flatten(Map(right), "");
    Report(
      Names(rf) - Names(lf),
      Names(lf) - Names(rf),
      set k | k in Names(lf) && k in Names(rf) &&
              exists e, f :: e in lf && f in rf && e.0 == k && f.0 == k && !PyEqValue(e.1, f.1))
  }

  ghost predicate IsIdentical(r: Report)
  {
    r.added == {} && r.removed == {} && r.changed == {}
  }

  /** How a report classifies a name, decided by the leaf at its route. */
  lemma ReportAtRoute(left: Entries, right: Entries, route: Route)
    requires NoClash(left, right) && IsLeafRoute(left, right, route)
    ensures var name := Render("", route);
            var r := Compare(left, right);
            var l, rr := LeafAt(Map(left), route), LeafAt(Map(right), route);
            && (name in r.added <==> l == None)
            && (name in r.removed <==> rr == None)
            && (name in r.changed <==> l.Some? && rr.Some? && !PyEqValue(l.value, rr.value))
  {
    var name := Render("", route);
    var lf, rf := Flatten(Map(left), ""), Flatten(Map(right), "");
    NameAtRoute(left, right, route);
    FlattenIsDictionary(left, right);
    FlattenIsDictionary(right, left);
    var l, r := LeafAt(Map(left), route), LeafAt(Map(right), route);
    if l.Some? && r.Some? {
      FlattenHasLeaf(Map(left), "", route);
      FlattenHasLeaf(Map(right), "", route);
      assert forall e, f :: e in lf && f in rf && e.0 == name && f.0 == name ==> e == (name, l.value) && f == (name, r.value);
      assert (name, l.value) in lf && (name, r.value) in rf;
    }
  }

  /** Without clashes, a rendered name belongs to one route only, whichever config it comes from. */
  lemma NameAtRoute(left: Entries, right: Entries, route: Route)
    requires NoClash(left, right) && IsLeafRoute(left, right, route)
    ensures Render("", route) in Names(Flatten(Map(left), "")) <==> LeafAt(Map(left), route).Some?
    ensures Render("", route) in Names(Flatten(Map(right), "")) <==> LeafAt(Map(right), route).Some?
  {
    var name := Render("", route);
    forall m | m == left || m == right
      ensures name in Names(Flatten(Map(m), "")) <==> LeafAt(Map(m), route).Some?
    {
      if LeafAt(Map(m), route).Some? {
        FlattenHasLeaf(Map(m), "", route);
        assert (name, LeafAt(Map(m), route).value).0 in Names(Flatten(Map(m), ""));
      }
      if name in Names(Flatten(Map(m), "")) {
        var e :| e in Flatten(Map(m), "") && e.0 == name;
        var q := FlattenRoute(Map(m), "", e);
        assert IsLeafRoute(left, right, q);
      }
    }
  }

  /** Without clashes, `compare` says identical exactly when the two configs have the same leaves. */
  lemma IdenticalIffSameLeaves(left: Entries, right: Entries)
    requires NoClash(left, right)
    ensures IsIdentical(Compare(left, right)) <==> SameLeaves(Map(left), Map(right))
  {
    if IsIdentical(Compare(left, right)) {
      forall route
        ensures SameLeaf(Map(left), Map(right), route)
      {
        if IsLeafRoute(left, right, route) {
          ReportAtRoute(left, right, route);
        }
      }
    }
    if SameLeaves(Map(left), Map(right)) {
      var r := Compare(left, right);
      forall name
        ensures name !in r.added + r.removed + r.changed
      {
        if name in r.added + r.removed + r.changed {
          var route := RouteOfName(left, right, name);
          assert SameLeaf(Map(left), Map(right), route);
          ReportAtRoute(left, right, route);
        }
      }
      assert r.added + r.removed + r.changed == {};
    }
  }

  /** That is, exactly when Python calls the cores of the expanded trees equal: empty parts do not count. */
  lemma IdenticalIffCoresEqual(left: Entries, right: Entries)
    requires NoClash(left, right)
    ensures IsIdentical(Compare(left, right)) <==> PyEq(Core(Map(left)), Core(Map(right)))
  {
    IdenticalIffSameLeaves(left, right);
    SameLeavesIffCoresEqual(Map(left), Map(right));
  }

  /** Equal trees are always reported identical, so `compare` errs exactly on unequal trees with equal cores. */
  lemma CompareErrsIff(left: Entries, right: Entries)
    requires NoClash(left, right)
    ensures PyEq(Map(left), Map(right)) ==> IsIdentical(Compare(left, right))
    ensures (IsIdentical(Compare(left, right)) <==> PyEq(Map(left), Map(right)))
       <==> !(PyEq(Core(Map(left)), Core(Map(right))) && !PyEq(Map(left), Map(right)))
  {
    IdenticalIffCoresEqual(left, right);
    IdenticalIffSameLeaves(left, right);
    if PyEq(Map(left), Map(right)) {
      forall route
        ensures SameLeaf(Map(left), Map(right), route)
      {
        EqualTreesShareLeaves(Map(left), Map(right), route);
      }
    }
  }

  /** The other config has a leaf of the same rendered name and an equal value. */
  ghost predicate HasTwin(m: Entries, other: Entries, p: Route)
    requires LeafAt(Map(m), p).Some?
  {
    exists q :: IsTwin(m, other, p, q)
  }

  ghost predicate IsTwin(m: Entries, other: Entries, p: Route, q: Route)
    requires LeafAt(Map(m), p).Some?
  {
    && LeafAt(Map(other), q).Some? && Render("", q) == Render("", p)
    && PyEqValue(LeafAt(Map(m), p).value, LeafAt(Map(other), q).value)
  }

  ghost predicate Twinned(m: Entries, other: Entries)
  {
    forall p :: LeafAt(Map(m), p).Some? ==> HasTwin(m, other, p)
  }

  /**
   When each config alone has one value per name, whether or not routes of the two clash: `compare` says identical
   exactly when every leaf of either side has an equally rendered, equal leaf on the other.
   */
  lemma IdenticalIffTwinned(left: Entries, right: Entries)
    requires IsDictionary(Flatten(Map(left), "")) && IsDictionary(Flatten(Map(right), ""))
    ensures IsIdentical(Compare(left, right)) <==> Twinned(left, right) && Twinned(right, left)
  {
    if IsIdentical(Compare(left, right)) {
      forall p | LeafAt(Map(left), p).Some?
        ensures HasTwin(left, right, p)
      {
        TwinOfIdentical(left, right, p);
      }
      forall p | LeafAt(Map(right), p).Some?
        ensures HasTwin(right, left, p)
      {
        TwinOfIdenticalBack(left, right, p);
      }
    }
    if Twinned(left, right) && Twinned(right, left) {
      var r := Compare(left, right);
      forall name
        ensures name !in r.added + r.removed + r.changed
      {
        if name in Names(Flatten(Map(left), "")) { NamesAreShared(left, right, name); }
        if name in Names(Flatten(Map(right), "")) { NamesAreShared(right, left, name); }
        NamesAreUnchanged(left, right, name);
      }
      assert r.added + r.removed + r.changed == {};
    }
  }

  lemma TwinOfIdentical(left: Entries, right: Entries, p: Route)
    requires IsIdentical(Compare(left, right)) && LeafAt(Map(left), p).Some?
    ensures HasTwin(left, right, p)
  {
    var name, lf, rf := Render("", p), Flatten(Map(left), ""), Flatten(Map(right), "");
    FlattenHasLeaf(Map(left), "", p);
    var e := (name, LeafAt(Map(left), p).value);
    assert e.0 in Names(lf) && name !in Compare(left, right).removed;
    var f :| f in rf && f.0 == name;
    assert name !in Compare(left, right).changed;
    var q := FlattenRoute(Map(right), "", f);
    assert IsTwin(left, right, p, q);
  }

  lemma TwinOfIdenticalBack(left: Entries, right: Entries, p: Route)
    requires IsIdentical(Compare(left, right)) && LeafAt(Map(right), p).Some?
    ensures HasTwin(right, left, p)
  {
    var name, lf, rf := Render("", p), Flatten(Map(left), ""), Flatten(Map(right), "");
    FlattenHasLeaf(Map(right), "", p);
    var f := (name, LeafAt(Map(right), p).value);
    assert f.0 in Names(rf) && name !in Compare(left, right).added;
    var e :| e in lf && e.0 == name;
    assert name !in Compare(left, right).changed;
    var q := FlattenRoute(Map(left), "", e);
    assert IsTwin(right, left, p, q);
  }

  lemma NamesAreShared(m: Entries, other: Entries, name: string)
    requires Twinned(m, other) && name in Names(Flatten(Map(m), ""))
    ensures name in Names(Flatten(Map(other), ""))
  {
    var e :| e in Flatten(Map(m), "") && e.0 == name;
    var p := FlattenRoute(Map(m), "", e);
    assert HasTwin(m, other, p);
    var q :| IsTwin(m, other, p, q);
    FlattenHasLeaf(Map(other), "", q);
    assert (name, LeafAt(Map(other), q).value).0 == name;
  }

  lemma NamesAreUnchanged(left: Entries, right: Entries, name: string)
    requires Twinned(left, right) && IsDictionary(Flatten(Map(right), ""))
    ensures name !in Compare(left, right).changed
  {
    var lf, rf := Flatten(Map(left), ""), Flatten(Map(right), "");
    forall e, f | e in lf && f in rf && e.0 == name && f.0 == name
      ensures PyEqValue(e.1, f.1)
    {
      var p := FlattenRoute(Map(left), "", e);
      assert HasTwin(left, right, p);
      var q :| IsTwin(left, right, p, q);
      FlattenHasLeaf(Map(right), "", q);
      assert f == (name, LeafAt(Map(right), q).value);
    }
  }

  /** Only the root may be empty. */
  predicate NoEmptySection(m: Entries)
  {
    forall k :: k in m ==> NoEmptyPart(m[k])
  }

  lemma CoreOfConfig(m: Entries)
    requires NoEmptySection(m)
    ensures Core(Map(m)) == Map(m)
  {
    if m != map[] { CoreOfFull(Map(m)); }
  }

  /** On configs with clean keys and no empty sections `compare` says identical exactly when Python calls the trees equal. */
  lemma IdenticalIffEqual(left: Entries, right: Entries)
    requires CleanKeys(Map(left)) && CleanKeys(Map(right)) && NoEmptySection(left) && NoEmptySection(right)
    ensures IsIdentical(Compare(left, right)) <==> PyEq(Map(left), Map(right))
  {
    CleanKeysDoNotClash(left, right);
    IdenticalIffCoresEqual(left, right);
    CoreOfConfig(left);
    CoreOfConfig(right);
  }

  lemma RouteOfName(left: Entries, right: Entries, name: string) returns (route: Route)
    requires name in Names(Flatten(Map(left), "")) + Names(Flatten(Map(right), ""))
    ensures Render("", route) == name
    ensures LeafAt(Map(left), route).Some? || LeafAt(Map(right), route).Some?
  {
    if name in Names(Flatten(Map(left), "")) {
      var e :| e in Flatten(Map(left), "") && e.0 == name;
      route := FlattenRoute(Map(left), "", e);
    } else {
      var e :| e in Flatten(Map(right), "") && e.0 == name;
      route := FlattenRoute(Map(right), "", e);
    }
  }

  /**
   The report partitions the routes where the two configs differ: a name is in exactly one of the
   three sets when its route holds different leaves, and in none when it does not.
   */
  lemma ReportPartitionsDifferences(left: Entries, right: Entries, route: Route)
    requires NoClash(left, right) && IsLeafRoute(left, right, route)
    ensures var name := Render("", route);
            var r := Compare(left, right);
            && (SameLeaf(Map(left), Map(right), route) <==> name !in r.added + r.removed + r.changed)
            && r.added !! r.removed && r.added !! r.changed && r.removed !! r.changed
  {
    ReportAtRoute(left, right, route);
  }

  lemma FlattenSingleton(k: string, t: Tree, prefix: string)
    ensures Flatten(Map(map[k := t]), prefix) == Flatten(t, Extend(prefix, Key(k)))
  {
    var m: Entries := map[k := t];
    assert m.Keys == {k};
  }

  /** An empty section leaves no trace, so dropping one goes unreported: the keys are clean, but the cores are equal. */
  lemma EmptySectionIsInvisible()
    ensures var left: Entries := map["a" := Map(map[])];
            var right: Entries := map[];
            && IsIdentical(Compare(left, right)) && !PyEq(Map(left), Map(right))
            && CleanKeys(Map(left)) && CleanKeys(Map(right)) && Core(Map(left)) == Core(Map(right))
  {
    var left: Entries := map["a" := Map(map[])];
    FlattenSingleton("a", Map(map[]), "");
    assert Flatten(Map(map[]), "a") == {};
    assert Flatten(Map(map[]), "") == {};
    assert "a" in left;
  }

  /** A dotted key looks like a section, so the two go unreported: their leaf routes clash. */
  lemma DottedKeyLooksNested()
    ensures var left: Entries := map["a.b" := Leaf(Null)];
            var right: Entries := map["a" := Map(map["b" := Leaf(Null)])];
            IsIdentical(Compare(left, right)) && !PyEq(Map(left), Map(right)) && !NoClash(left, right)
  {
    var left: Entries := map["a.b" := Leaf(Null)];
    var inner := Map(map["b" := Leaf(Null)]);
    var right: Entries := map["a" := inner];
    assert "a" !in left && "a" in right;
    FlattenedExample(left, right, inner);
    LeavesOfExample(left, right, inner);
    hide Flatten, NoClash;
  }

  lemma FlattenedExample(left: Entries, right: Entries, inner: Tree)
    requires left == map["a.b" := Leaf(Null)] && inner == Map(map["b" := Leaf(Null)]) && right == map["a" := inner]
    ensures Flatten(Map(left), "") == Flatten(Map(right), "") == {("a.b", Null)}
  {
    assert Extend("a", Key("b")) == "a.b";
    FlattenSingleton("b", Leaf(Null), "a");
    FlattenSingleton("a", inner, "");
    FlattenSingleton("a.b", Leaf(Null), "");
  }

  lemma LeavesOfExample(left: Entries, right: Entries, inner: Tree)
    requires left == map["a.b" := Leaf(Null)] && inner == Map(map["b" := Leaf(Null)]) && right == map["a" := inner]
    ensures !NoClash(left, right)
  {
    var p, q: Route := [Key("a.b")] + [], [Key("a")] + ([Key("b")] + []);
    LeafBelowKey(left, "a.b", []);
    LeafBelowKey(right, "a", [Key("b")] + []);
    LeafBelowKey(inner.entries, "b", []);
    assert IsLeafRoute(left, right, p) && IsLeafRoute(left, right, q);
    assert q[1..] == [Key("b")] && q[1..][1..] == [] && p[1..] == [];
    assert Extend("", Key("a")) == "a" && Extend("a", Key("b")) == "a.b" && Extend("", Key("a.b")) == "a.b";
    assert Render("a.b", []) == "a.b" && Render("a", [Key("b")]) == "a.b";
    assert Render("", p) == "a.b" && Render("", q) == "a.b";
    assert |p| != |q|;
  }
}
