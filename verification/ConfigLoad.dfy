/** Loading a config with inheritance: depth-first, later files on top of earlier ones. */
module ConfigLoad {
  import opened Prelude
  import opened ConfigTree
  import opened ConfigPrune

  type Path = string

  /** A file: its resolved `defaults`, absent or a list, and the rest of its mapping. */
  datatype File = File(defaults: Option<seq<Path>>, body: Entries)

  type Files = map<Path, File>

  datatype LoadError = Missing(path: Path)

  /** Every default is ranked below the file that names it: the defaults graph is acyclic. */
  ghost predicate Acyclic(files: Files, rank: map<Path, nat>)
  {
    forall p :: p in files ==>
      && p in rank
      && (files[p].defaults.Some? ==> RankedBelow(files[p].defaults.value, rank, rank[p]))
  }

  ghost predicate RankedBelow(ds: seq<Path>, rank: map<Path, nat>, bound: nat)
  {
    forall i :: 0 <= i < |ds| ==> ds[i] in rank && rank[ds[i]] < bound
  }

  /** What loading `p` means. */
  ghost function Load(files: Files, rank: map<Path, nat>, p: Path): Result<Entries, LoadError>
    requires Acyclic(files, rank) && p in rank
    decreases rank[p], 1, 0
  {
    if p !in files then Err(Missing(p))
    else if files[p].defaults == None then Ok(files[p].body)
    else
      match LoadOnto(files, rank, map[], files[p].defaults.value, rank[p])
      case Err(e) => Err(e)
      case Ok(base) => Ok(Overlay(base, files[p].body))
  }

  /** The parents overlaid in order on `acc`. */
  ghost function LoadOnto(files: Files, rank: map<Path, nat>, acc: Entries, ds: seq<Path>, bound: nat): Result<Entries, LoadError>
    requires Acyclic(files, rank) && RankedBelow(ds, rank, bound)
    decreases bound, 0, |ds|
  {
    if ds == [] then Ok(acc)
    else
      match LoadOnto(files, rank, acc, ds[..|ds| - 1], bound)
      case Err(e) => Err(e)
      case Ok(base) =>
        match Load(files, rank, ds[|ds| - 1])
        case Err(e) => Err(e)
        case Ok(parent) => Ok(Overlay(base, parent))
  }

  /** The loader: recursion into each default, in order, then the file itself. */
  method LoadConfigWithInheritance(files: Files, ghost rank: map<Path, nat>, p: Path) returns (r: Result<Entries, LoadError>)
    requires Acyclic(files, rank) && p in rank
    ensures r == Load(files, rank, p)
    ensures p !in files ==> r == Err(Missing(p))
    ensures p in files && files[p].defaults.None? ==> r == Ok(files[p].body)
    // With defaults: the error of the first that fails, and otherwise at every path what the last one to decide decides.
    ensures p in files && files[p].defaults.Some? ==>
      var ds := files[p].defaults.value;
      if AllLoad(files, rank, ds, rank[p]) then
        r.Ok? && forall path :: path != [] ==>
          NodeAt(Map(r.value), path) == LastSettled(Loaded(files, rank, ds, rank[p]) + [files[p].body], path)
      else forall i :: 0 <= i < |ds| && FailsFirst(files, rank, ds, rank[p], i) ==> r == Load(files, rank, ds[i])
    decreases rank[p]
  {
    if p in files && files[p].defaults.Some? {
      LoadSettles(files, rank, p);
    }
    if p !in files {
      return Err(Missing(p));
    }
    var config := files[p].body;
    if files[p].defaults.Some? {
      var defaults := files[p].defaults.value;
      var baseConfig: Entries := map[];
      assert defaults[..|defaults|] == defaults;
      for i := 0 to |defaults|
        invariant LoadOnto(files, rank, map[], defaults[..i], rank[p]) == Ok(baseConfig)
      {
        OneMoreDefault(files, rank, defaults, rank[p], i);
        hide LoadOnto, Load;
        var parent := LoadConfigWithInheritance(files, rank, defaults[i]);
        if parent.Err? {
          FirstErrorWins(files, rank, defaults, rank[p], i + 1);
          return parent;
        }
        baseConfig := MergeWithOverride(baseConfig, parent.value);
      }
      config := MergeWithOverride(baseConfig, config);
    }
    r := Ok(config);
  }

  /** The first default that cannot be loaded. */
  ghost predicate FailsFirst(files: Files, rank: map<Path, nat>, ds: seq<Path>, bound: nat, i: nat)
    requires Acyclic(files, rank) && RankedBelow(ds, rank, bound) && i < |ds|
  {
    Load(files, rank, ds[i]).Err? && forall j :: 0 <= j < i ==> Load(files, rank, ds[j]).Ok?
  }

  ghost predicate AllLoad(files: Files, rank: map<Path, nat>, ds: seq<Path>, bound: nat)
    requires Acyclic(files, rank) && RankedBelow(ds, rank, bound)
  {
    forall i :: 0 <= i < |ds| ==> Load(files, rank, ds[i]).Ok?
  }

  /** What the defaults load to, in order. */
  ghost function Loaded(files: Files, rank: map<Path, nat>, ds: seq<Path>, bound: nat): seq<Entries>
    requires Acyclic(files, rank) && RankedBelow(ds, rank, bound) && AllLoad(files, rank, ds, bound)
  {
    seq(|ds|, i requires 0 <= i < |ds| => Load(files, rank, ds[i]).value)
  }

  /** What the last config that decides anything at the path decides there. */
  function LastSettled(cs: seq<Entries>, path: seq<string>): Node
    requires path != []
  {
    if cs == [] then Nothing
    else if Settles(cs[|cs| - 1], path).Some? then Settles(cs[|cs| - 1], path).value
    else LastSettled(cs[..|cs| - 1], path)
  }

  lemma {:induction false} LoadOntoFails(files: Files, rank: map<Path, nat>, ds: seq<Path>, bound: nat)
    requires Acyclic(files, rank) && RankedBelow(ds, rank, bound)
    ensures var r := LoadOnto(files, rank, map[], ds, bound);
      && (r.Ok? <==> AllLoad(files, rank, ds, bound))
      && (forall i :: 0 <= i < |ds| && FailsFirst(files, rank, ds, bound, i) ==> r == Load(files, rank, ds[i]))
    decreases |ds|
  {
    if ds != [] {
      var front, last := ds[..|ds| - 1], ds[|ds| - 1];
      LoadOntoFails(files, rank, front, bound);
      var base, r := LoadOnto(files, rank, map[], front, bound), LoadOnto(files, rank, map[], ds, bound);
      assert base.Err? ==> r == base;
      assert base.Ok? ==> (r.Ok? <==> Load(files, rank, last).Ok?) && (r.Err? ==> r == Load(files, rank, last));
      hide Overlay, Load, Acyclic, LoadOnto;
      forall i | 0 <= i < |ds| && FailsFirst(files, rank, ds, bound, i)
        ensures r == Load(files, rank, ds[i])
      {
        if i < |front| {
          assert FailsFirst(files, rank, front, bound, i);
        } else {
          assert AllLoad(files, rank, front, bound);
        }
      }
    }
  }

  lemma {:induction false} LoadOntoSettles(files: Files, rank: map<Path, nat>, ds: seq<Path>, bound: nat, path: seq<string>)
    requires Acyclic(files, rank) && RankedBelow(ds, rank, bound) && AllLoad(files, rank, ds, bound) && path != []
    ensures var r := LoadOnto(files, rank, map[], ds, bound);
      r.Ok? && NodeAt(Map(r.value), path) == LastSettled(Loaded(files, rank, ds, bound), path)
    decreases |ds|
  {
    if ds != [] {
      var front, last := ds[..|ds| - 1], ds[|ds| - 1];
      LoadOntoSettles(files, rank, front, bound, path);
      OverlaySettles(LoadOnto(files, rank, map[], front, bound).value, Load(files, rank, last).value, path);
      assert Loaded(files, rank, ds, bound)[..|ds| - 1] == Loaded(files, rank, front, bound);
      hide Overlay, Load, Settles, NodeAt;
    }
  }

  /**
   What a file loads to: its own body if it has no defaults; the error of the first default that cannot be loaded; and
   otherwise, at every path, what the last of its defaults, in order, and itself decides there.
   */
  lemma LoadSettles(files: Files, rank: map<Path, nat>, p: Path)
    requires Acyclic(files, rank) && p in files && files[p].defaults.Some?
    ensures var ds, r := files[p].defaults.value, Load(files, rank, p);
      && (r.Ok? <==> AllLoad(files, rank, ds, rank[p]))
      && (r.Ok? ==> forall path :: path != [] ==>
            NodeAt(Map(r.value), path) == LastSettled(Loaded(files, rank, ds, rank[p]) + [files[p].body], path))
      && (forall i :: 0 <= i < |ds| && FailsFirst(files, rank, ds, rank[p], i) ==> r == Load(files, rank, ds[i]))
  {
    var ds, r := files[p].defaults.value, Load(files, rank, p);
    LoadOntoFails(files, rank, ds, rank[p]);
    forall path | path != [] && r.Ok?
      ensures NodeAt(Map(r.value), path) == LastSettled(Loaded(files, rank, ds, rank[p]) + [files[p].body], path)
    {
      var loaded := Loaded(files, rank, ds, rank[p]);
      LoadOntoSettles(files, rank, ds, rank[p], path);
      OverlaySettles(LoadOnto(files, rank, map[], ds, rank[p]).value, files[p].body, path);
      assert (loaded + [files[p].body])[..|loaded|] == loaded;
    }
  }

  lemma OneMoreDefault(files: Files, rank: map<Path, nat>, ds: seq<Path>, bound: nat, i: nat)
    requires Acyclic(files, rank) && RankedBelow(ds, rank, bound) && i < |ds|
    requires LoadOnto(files, rank, map[], ds[..i], bound).Ok?
    ensures ds[i] in rank
    ensures LoadOnto(files, rank, map[], ds[..i + 1], bound)
      == match Load(files, rank, ds[i])
         case Err(e) => Err(e)
         case Ok(parent) => Ok(Overlay(LoadOnto(files, rank, map[], ds[..i], bound).value, parent))
  {
    assert ds[..i + 1][..i] == ds[..i];
  }

  lemma {:induction false} FirstErrorWins(files: Files, rank: map<Path, nat>, ds: seq<Path>, bound: nat, i: nat)
    requires Acyclic(files, rank) && RankedBelow(ds, rank, bound) && i <= |ds|
    requires LoadOnto(files, rank, map[], ds[..i], bound).Err?
    ensures LoadOnto(files, rank, map[], ds, bound) == LoadOnto(files, rank, map[], ds[..i], bound)
    decreases |ds|
  {
    if i == |ds| {
      assert ds[..i] == ds;
    } else {
      var front := ds[..|ds| - 1];
      assert front[..i] == ds[..i];
      FirstErrorWins(files, rank, front, bound, i);
    }
  }

  // ---------------------------------------------------------------------------------------
  // Depth-first, last writer wins
  // ---------------------------------------------------------------------------------------

  /** The bodies a load visits, depth first, each file after its defaults. */
  ghost function Linearise(files: Files, rank: map<Path, nat>, p: Path): seq<Tree>
    requires Acyclic(files, rank) && p in rank
    decreases rank[p], 1, 0
  {
    if p !in files then []
    else (if files[p].defaults == None then [] else LineariseAll(files, rank, files[p].defaults.value, rank[p]))
         + [Map(files[p].body)]
  }

  ghost function LineariseAll(files: Files, rank: map<Path, nat>, ds: seq<Path>, bound: nat): seq<Tree>
    requires Acyclic(files, rank) && RankedBelow(ds, rank, bound)
    decreases bound, 0, |ds|
  {
    if ds == [] then []
    else LineariseAll(files, rank, ds[..|ds| - 1], bound) + Linearise(files, rank, ds[|ds| - 1])
  }

  ghost function MergeOnto(acc: Tree, cs: seq<Tree>): Tree
  {
    if cs == [] then acc else Merge(MergeOnto(acc, cs[..|cs| - 1]), cs[|cs| - 1])
  }

  const EMPTY := Map(map[])

  /** The two trees use a map, or not, at every path they share. */
  ghost predicate Agree(a: Tree, b: Tree)
    decreases a
  {
    a.Map? == b.Map? &&
    (a.Map? ==> forall k :: k in a.entries && k in b.entries ==> Agree(a.entries[k], b.entries[k]))
  }

  ghost predicate AgreePairwise(cs: seq<Tree>)
  {
    forall i, j :: 0 <= i < j < |cs| ==> Agree(cs[i], cs[j])
  }

  ghost predicate AllPlainMaps(cs: seq<Tree>)
  {
    forall i :: 0 <= i < |cs| ==> cs[i].Map? && NoOverride(cs[i])
  }

  lemma {:induction false} MergeAssociative(a: Tree, b: Tree, c: Tree)
    requires Agree(a, b) && Agree(b, c) && Agree(a, c)
    ensures Merge(a, Merge(b, c)) == Merge(Merge(a, b), c)
    decreases a, b, c
  {
    if a.Map? {
      var l, r := Merge(a, Merge(b, c)).entries, Merge(Merge(a, b), c).entries;
      assert l.Keys == r.Keys;
      forall k | k in l
        ensures l[k] == r[k]
      {
        if k in a.entries && k in b.entries && k in c.entries {
          MergeAssociative(a.entries[k], b.entries[k], c.entries[k]);
        }
      }
    }
  }

  /**
   When three trees may be merged in either grouping: wherever all three are maps this is asked of the keys they
   share, and where only the middle one is not, it must not matter that it hides the first from the third.
   */
  ghost predicate Assoc(a: Tree, b: Tree, c: Tree)
    decreases a
  {
    if a.Map? && c.Map? then
      if b.Map? then
        forall k :: k in a.entries && k in b.entries && k in c.entries ==> Assoc(a.entries[k], b.entries[k], c.entries[k])
      else Merge(a, c) == c
    else true
  }

  /** Merging is associative exactly then. */
  lemma {:induction false} MergeAssociativeIff(a: Tree, b: Tree, c: Tree)
    ensures Merge(a, Merge(b, c)) == Merge(Merge(a, b), c) <==> Assoc(a, b, c)
    decreases a
  {
    if a.Map? && b.Map? && c.Map? {
      var l, r := Merge(a, Merge(b, c)).entries, Merge(Merge(a, b), c).entries;
      assert l.Keys == r.Keys;
      forall k | k in l
        ensures if k in a.entries && k in b.entries && k in c.entries then
                  l[k] == r[k] <==> Assoc(a.entries[k], b.entries[k], c.entries[k])
                else l[k] == r[k]
      {
        if k in a.entries && k in b.entries && k in c.entries {
          MergeAssociativeIff(a.entries[k], b.entries[k], c.entries[k]);
        }
      }
      if forall k :: k in l ==> l[k] == r[k] {
        assert l == r;
      }
    }
  }

  lemma {:induction false} AgreeMerge(a: Tree, b: Tree, c: Tree)
    requires Agree(a, c) && Agree(b, c) && Agree(a, b)
    ensures Agree(Merge(a, b), c)
    decreases a, b, c
  {
    if a.Map? {
      var m := Merge(a, b).entries;
      forall k | k in m && k in c.entries
        ensures Agree(m[k], c.entries[k])
      {
        if k in a.entries && k in b.entries {
          AgreeMerge(a.entries[k], b.entries[k], c.entries[k]);
        }
      }
    }
  }

  lemma {:induction false} AgreeSymmetric(a: Tree, b: Tree)
    requires Agree(a, b)
    ensures Agree(b, a)
    decreases a
  {
    if a.Map? {
      forall k | k in a.entries && k in b.entries
        ensures Agree(b.entries[k], a.entries[k])
      {
        AgreeSymmetric(a.entries[k], b.entries[k]);
      }
    }
  }

  lemma {:induction false} AgreeMergeOnto(acc: Tree, cs: seq<Tree>, c: Tree)
    requires Agree(acc, c) && AgreePairwise(cs)
    requires forall i :: 0 <= i < |cs| ==> Agree(acc, cs[i]) && Agree(cs[i], c)
    ensures Agree(MergeOnto(acc, cs), c)
    decreases |cs|
  {
    if cs != [] {
      var front := cs[..|cs| - 1];
      AgreeMergeOnto(acc, front, c);
      AgreeMergeOnto(acc, front, cs[|cs| - 1]);
      AgreeMerge(MergeOnto(acc, front), cs[|cs| - 1], c);
    }
  }

  /** Every member of a block may be merged into the block before the block is merged onto `acc`. */
  ghost predicate Chains(acc: Tree, cs: seq<Tree>)
  {
    forall i :: 0 <= i < |cs| ==> Assoc(acc, MergeOnto(EMPTY, cs[..i]), cs[i])
  }

  /** Then merging the block first and then onto `acc` is merging its members onto `acc` one by one. */
  lemma {:induction false} MergeBlock(acc: Tree, cs: seq<Tree>)
    requires acc.Map? && Chains(acc, cs) && forall i :: 0 <= i < |cs| ==> cs[i].Map?
    ensures Merge(acc, MergeOnto(EMPTY, cs)) == MergeOnto(acc, cs)
    decreases |cs|
  {
    if cs == [] {
      MergeEmpty(acc);
    } else {
      var n := |cs| - 1;
      var front, last := cs[..n], cs[n];
      ChainsInFront(acc, cs, n);
      assert Assoc(acc, MergeOnto(EMPTY, front), last);
      assert MergeOnto(EMPTY, cs) == Merge(MergeOnto(EMPTY, front), last) && MergeOnto(acc, cs) == Merge(MergeOnto(acc, front), last);
      hide Chains, Assoc, Merge, MergeOnto;
      MergeBlock(acc, front);
      MergeAssociativeIff(acc, MergeOnto(EMPTY, front), last);
    }
  }

  lemma ChainsInFront(acc: Tree, cs: seq<Tree>, n: nat)
    requires Chains(acc, cs) && n <= |cs|
    ensures Chains(acc, cs[..n])
  {
    hide Assoc, MergeOnto;
    assert forall i :: 0 <= i < n ==> cs[..n][..i] == cs[..i] && cs[..n][i] == cs[i];
  }

  /** Agreeing configs chain. */
  lemma AgreementChains(acc: Tree, cs: seq<Tree>)
    requires acc.Map? && AgreePairwise(cs) && forall i :: 0 <= i < |cs| ==> Agree(acc, cs[i]) && cs[i].Map?
    ensures Chains(acc, cs)
  {
    forall i | 0 <= i < |cs|
      ensures Assoc(acc, MergeOnto(EMPTY, cs[..i]), cs[i])
    {
      AgreeMergeOnto(EMPTY, cs[..i], cs[i]);
      AgreeFromMembers(acc, cs[..i]);
      MergeAssociative(acc, MergeOnto(EMPTY, cs[..i]), cs[i]);
      MergeAssociativeIff(acc, MergeOnto(EMPTY, cs[..i]), cs[i]);
    }
  }

  /** `Chains` says that every initial part of the block may be merged as a block or one by one. */
  lemma ChainsIff(acc: Tree, cs: seq<Tree>)
    requires acc.Map? && forall i :: 0 <= i < |cs| ==> cs[i].Map?
    ensures Chains(acc, cs) <==>
      forall n :: 0 <= n <= |cs| ==> Merge(acc, MergeOnto(EMPTY, cs[..n])) == MergeOnto(acc, cs[..n])
  {
    hide Assoc, Merge;
    if Chains(acc, cs) {
      forall n | 0 <= n <= |cs|
        ensures Merge(acc, MergeOnto(EMPTY, cs[..n])) == MergeOnto(acc, cs[..n])
      {
        ChainsInFront(acc, cs, n);
        MergeBlock(acc, cs[..n]);
      }
    }
    if forall n :: 0 <= n <= |cs| ==> Merge(acc, MergeOnto(EMPTY, cs[..n])) == MergeOnto(acc, cs[..n]) {
      forall i | 0 <= i < |cs|
        ensures Assoc(acc, MergeOnto(EMPTY, cs[..i]), cs[i])
      {
        assert cs[..i + 1][..i] == cs[..i];
        assert Merge(acc, MergeOnto(EMPTY, cs[..i + 1])) == MergeOnto(acc, cs[..i + 1]);
        MergeAssociativeIff(acc, MergeOnto(EMPTY, cs[..i]), cs[i]);
      }
    }
  }

  // ---- whole blocks ----------------------------------------------------------------------------

  /** The trees merged from left to right, with nothing before the first. */
  ghost function MergeAll(cs: seq<Tree>): Tree
    requires cs != []
  {
    if |cs| == 1 then cs[0] else Merge(MergeAll(cs[..|cs| - 1]), cs[|cs| - 1])
  }

  ghost predicate AllMaps(cs: seq<Tree>)
  {
    forall i :: 0 <= i < |cs| ==> cs[i].Map?
  }

  /** The trees after the last one that is not a map. */
  ghost function Tail(cs: seq<Tree>): seq<Tree>
  {
    if cs == [] || !cs[|cs| - 1].Map? then [] else Tail(cs[..|cs| - 1]) + [cs[|cs| - 1]]
  }

  /** What the trees that have a key have there, in order. */
  ghost function Below(cs: seq<Tree>, k: string): seq<Tree>
    requires AllMaps(cs)
  {
    if cs == [] then []
    else
      var last := cs[|cs| - 1];
      Below(cs[..|cs| - 1], k) + if k in last.entries then [last.entries[k]] else []
  }

  /**
   When a whole block may be merged first and then onto `acc`, or one by one: wherever the block puts a non-map under
   a map of `acc` and maps after it, `acc` adds nothing to those maps.
   */
  ghost predicate BlockFree(acc: Tree, cs: seq<Tree>)
    decreases acc
  {
    acc.Map? && cs != [] ==>
      if AllMaps(cs) then forall k :: k in acc.entries ==> BlockFree(acc.entries[k], Below(cs, k))
      else Tail(cs) != [] ==> Merge(acc, MergeAll(Tail(cs))) == MergeAll(Tail(cs))
  }

  lemma {:induction false} OntoNonMap(acc: Tree, cs: seq<Tree>)
    requires !acc.Map? && cs != []
    ensures MergeOnto(acc, cs) == MergeAll(cs)
    decreases |cs|
  {
    var front := cs[..|cs| - 1];
    if front == [] {
      assert MergeOnto(acc, front) == acc;
    } else {
      OntoNonMap(acc, front);
    }
  }

  /** A non-map in the block hides everything before it. */
  lemma {:induction false} NonMapHides(acc: Tree, cs: seq<Tree>)
    requires cs != [] && !AllMaps(cs)
    ensures MergeOnto(acc, cs) == MergeAll(cs)
    ensures if Tail(cs) == [] then !MergeAll(cs).Map? else MergeAll(cs) == MergeAll(Tail(cs))
    decreases |cs|
  {
    var front, last := cs[..|cs| - 1], cs[|cs| - 1];
    if !last.Map? {
      if front == [] { assert MergeOnto(acc, front) == acc; }
    } else {
      assert front != [] && !AllMaps(front) by {
        var i :| 0 <= i < |cs| && !cs[i].Map?;
        assert i < |cs| - 1 && front[i] == cs[i];
      }
      NonMapHides(acc, front);
      var t := Tail(front);
      if t == [] {
        assert Tail(cs) == [last];
      } else {
        assert (t + [last])[..|t|] == t;
      }
    }
  }

  ghost function At(t: Tree, k: string): Option<Tree>
    requires t.Map?
  {
    if k in t.entries then Some(t.entries[k]) else None
  }

  /** What is at a key once trees have been merged onto what was there. */
  ghost function Onto(was: Option<Tree>, cs: seq<Tree>): Option<Tree>
  {
    match was
    case Some(t) => Some(MergeOnto(t, cs))
    case None => if cs == [] then None else Some(MergeAll(cs))
  }

  lemma OntoOneMore(was: Option<Tree>, cs: seq<Tree>, c: Tree)
    ensures Onto(was, cs + [c]) == Some(if Onto(was, cs).Some? then Merge(Onto(was, cs).value, c) else c)
  {
    assert (cs + [c])[..|cs|] == cs;
  }

  lemma MergeAt(a: Tree, b: Tree, k: string)
    requires a.Map? && b.Map?
    ensures Merge(a, b).Map?
    ensures At(Merge(a, b), k) ==
      if At(b, k) == None then At(a, k) else if At(a, k) == None then At(b, k) else Some(Merge(At(a, k).value, At(b, k).value))
  {
  }

  lemma BelowOneMore(front: seq<Tree>, last: Tree, k: string)
    requires AllMaps(front) && last.Map?
    ensures AllMaps(front + [last])
    ensures Below(front + [last], k) == Below(front, k) + if At(last, k).Some? then [At(last, k).value] else []
  {
    assert (front + [last])[..|front|] == front;
  }

  /** Merging maps is merging what they have, key by key. */
  lemma {:induction false} MergeOntoAt(acc: Tree, cs: seq<Tree>, k: string)
    requires acc.Map? && AllMaps(cs)
    ensures MergeOnto(acc, cs).Map? && At(MergeOnto(acc, cs), k) == Onto(At(acc, k), Below(cs, k))
    decreases |cs|
  {
    if cs != [] {
      var front, last := cs[..|cs| - 1], cs[|cs| - 1];
      assert cs == front + [last];
      MergeOntoAt(acc, front, k);
      BelowOneMore(front, last, k);
      MergeAt(MergeOnto(acc, front), last, k);
      if At(last, k).Some? {
        OntoOneMore(At(acc, k), Below(front, k), At(last, k).value);
      } else {
        assert Below(front, k) + [] == Below(front, k);
      }
    }
  }

  lemma {:induction false} MergeAllAt(cs: seq<Tree>, k: string)
    requires cs != [] && AllMaps(cs)
    ensures MergeAll(cs).Map? && At(MergeAll(cs), k) == Onto(None, Below(cs, k))
    decreases |cs|
  {
    var front, last := cs[..|cs| - 1], cs[|cs| - 1];
    assert cs == front + [last];
    BelowOneMore(front, last, k);
    if At(last, k).Some? {
      OntoOneMore(None, Below(front, k), At(last, k).value);
    } else {
      assert Below(front, k) + [] == Below(front, k);
    }
    if front != [] {
      MergeAllAt(front, k);
      MergeAt(MergeAll(front), last, k);
    } else {
      assert Below(front, k) == [];
    }
  }

  lemma MapsMergeByKey(acc: Tree, cs: seq<Tree>, k: string)
    requires acc.Map? && cs != [] && AllMaps(cs)
    ensures MergeOnto(acc, cs).Map? && MergeAll(cs).Map?
    ensures At(Merge(acc, MergeAll(cs)), k) ==
      if Below(cs, k) == [] then At(acc, k)
      else Some(if At(acc, k).Some? then Merge(At(acc, k).value, MergeAll(Below(cs, k))) else MergeAll(Below(cs, k)))
    ensures At(MergeOnto(acc, cs), k) == Onto(At(acc, k), Below(cs, k))
  {
    MergeOntoAt(acc, cs, k);
    MergeAllAt(cs, k);
    MergeAt(acc, MergeAll(cs), k);
  }

  /** Merging the block first and then onto `acc` is merging its members onto `acc` one by one exactly then. */
  lemma {:induction false} BlockIff(acc: Tree, cs: seq<Tree>)
    requires cs != []
    ensures Merge(acc, MergeAll(cs)) == MergeOnto(acc, cs) <==> BlockFree(acc, cs)
    decreases acc
  {
    if !acc.Map? {
      OntoNonMap(acc, cs);
    } else if AllMaps(cs) {
      BlockIffByKey(acc, cs);
    } else {
      NonMapHides(acc, cs);
    }
  }

  lemma {:induction false} BlockIffByKey(acc: Tree, cs: seq<Tree>)
    requires acc.Map? && cs != [] && AllMaps(cs)
    ensures Merge(acc, MergeAll(cs)) == MergeOnto(acc, cs) <==> BlockFree(acc, cs)
    decreases acc, 0
  {
    var l, r := Merge(acc, MergeAll(cs)), MergeOnto(acc, cs);
    forall k
      ensures l.Map? && r.Map? && (k !in acc.entries ==> At(l, k) == At(r, k))
      ensures k in acc.entries ==> (At(l, k) == At(r, k) <==> BlockFree(acc.entries[k], Below(cs, k)))
    {
      MapsMergeByKey(acc, cs, k);
      if k in acc.entries && Below(cs, k) != [] {
        BlockIff(acc.entries[k], Below(cs, k));
      }
    }
    SameAtAllKeys(l, r);
  }

  lemma SameAtAllKeys(l: Tree, r: Tree)
    requires l.Map? && r.Map?
    ensures l == r <==> forall k :: At(l, k) == At(r, k)
  {
    if forall k :: At(l, k) == At(r, k) {
      assert forall k :: k in l.entries <==> At(l, k).Some?;
      assert forall k :: k in r.entries <==> At(r, k).Some?;
      assert l.entries.Keys == r.entries.Keys;
      assert forall k :: k in l.entries ==> l.entries[k] == At(l, k).value && r.entries[k] == At(r, k).value;
      assert l.entries == r.entries;
    }
  }

  lemma AgreeFromMembers(acc: Tree, cs: seq<Tree>)
    requires acc.Map? && AgreePairwise(cs) && forall i :: 0 <= i < |cs| ==> Agree(acc, cs[i]) && cs[i].Map?
    ensures Agree(acc, MergeOnto(EMPTY, cs))
  {
    forall i | 0 <= i < |cs| ensures Agree(cs[i], acc) { AgreeSymmetric(acc, cs[i]); }
    AgreeMergeOnto(EMPTY, cs, acc);
    AgreeSymmetric(MergeOnto(EMPTY, cs), acc);
  }

  lemma {:induction false} MergeOntoAppend(acc: Tree, xs: seq<Tree>, ys: seq<Tree>)
    ensures MergeOnto(acc, xs + ys) == MergeOnto(MergeOnto(acc, xs), ys)
    decreases |ys|
  {
    if ys == [] {
      assert xs + ys == xs;
    } else {
      var front := ys[..|ys| - 1];
      assert (xs + ys)[..|xs + ys| - 1] == xs + front;
      MergeOntoAppend(acc, xs, front);
    }
  }

  /** At every file of the graph, what each default contributes may be merged member by member instead. */
  ghost predicate Regroups(files: Files, rank: map<Path, nat>, p: Path)
    requires Acyclic(files, rank) && p in rank
    decreases rank[p], 1, 0
  {
    p in files && files[p].defaults.Some? ==> RegroupsAll(files, rank, files[p].defaults.value, rank[p])
  }

  ghost predicate RegroupsAll(files: Files, rank: map<Path, nat>, ds: seq<Path>, bound: nat)
    requires Acyclic(files, rank) && RankedBelow(ds, rank, bound)
    decreases bound, 0, |ds|
  {
    ds == [] ||
    (var front, last := ds[..|ds| - 1], ds[|ds| - 1];
     && RegroupsAll(files, rank, front, bound) && Regroups(files, rank, last)
     && BlockFree(MergeOnto(EMPTY, LineariseAll(files, rank, front, bound)), Linearise(files, rank, last)))
  }

  /** The load of `p`, every load below it and every partial load on the way is the merge of its linearised files. */
  ghost predicate Faithful(files: Files, rank: map<Path, nat>, p: Path)
    requires Acyclic(files, rank) && p in rank
    decreases rank[p], 1, 0
  {
    && Load(files, rank, p).Ok? && Map(Load(files, rank, p).value) == MergeOnto(EMPTY, Linearise(files, rank, p))
    && (p in files && files[p].defaults.Some? ==> FaithfulAll(files, rank, files[p].defaults.value, rank[p]))
  }

  ghost predicate FaithfulAll(files: Files, rank: map<Path, nat>, ds: seq<Path>, bound: nat)
    requires Acyclic(files, rank) && RankedBelow(ds, rank, bound)
    decreases bound, 0, |ds|
  {
    var r := LoadOnto(files, rank, map[], ds, bound);
    && r.Ok? && Map(r.value) == MergeOnto(EMPTY, LineariseAll(files, rank, ds, bound))
    && (ds != [] ==> FaithfulAll(files, rank, ds[..|ds| - 1], bound) && Faithful(files, rank, ds[|ds| - 1]))
  }

  /** Loading is merging the linearised files, at the file and at everything below it, exactly when the graph regroups. */
  lemma {:induction false} FaithfulIffRegroups(files: Files, rank: map<Path, nat>, p: Path)
    requires Acyclic(files, rank) && p in rank && Load(files, rank, p).Ok? && AllPlainMaps(Linearise(files, rank, p))
    ensures Faithful(files, rank, p) <==> Regroups(files, rank, p)
    decreases rank[p], 1, 0
  {
    var body := files[p].body;
    if files[p].defaults == None {
      assert Linearise(files, rank, p) == [Map(body)];
      OntoEmpty([Map(body)]);
    } else {
      var ds := files[p].defaults.value;
      var before := LineariseAll(files, rank, ds, rank[p]);
      assert Linearise(files, rank, p) == before + [Map(body)];
      SplitPlain(before, [Map(body)]);
      assert NoOverride([Map(body)][0]);
      FaithfulAllIffRegroupsAll(files, rank, ds, rank[p]);
      OverlayIsMerge(LoadOnto(files, rank, map[], ds, rank[p]).value, body);
      assert (before + [Map(body)])[..|before|] == before;
    }
  }

  lemma {:induction false} FaithfulAllIffRegroupsAll(files: Files, rank: map<Path, nat>, ds: seq<Path>, bound: nat)
    requires Acyclic(files, rank) && RankedBelow(ds, rank, bound) && LoadOnto(files, rank, map[], ds, bound).Ok?
    requires AllPlainMaps(LineariseAll(files, rank, ds, bound))
    ensures FaithfulAll(files, rank, ds, bound) <==> RegroupsAll(files, rank, ds, bound)
    decreases bound, 0, |ds|
  {
    if ds != [] {
      var front, last := ds[..|ds| - 1], ds[|ds| - 1];
      var xs, ys := LineariseAll(files, rank, front, bound), Linearise(files, rank, last);
      SplitPlain(xs, ys);
      FaithfulAllIffRegroupsAll(files, rank, front, bound);
      FaithfulIffRegroups(files, rank, last);
      BlocksMergeIff(xs, ys);
      MergedHasNoMarker(ys);
      hide NoOverride, MergeOnto, AllPlainMaps, BlockFree;
      if FaithfulAll(files, rank, front, bound) && Faithful(files, rank, last) {
        OverlayOfPlain(LoadOnto(files, rank, map[], front, bound).value, Load(files, rank, last).value);
      }
    }
  }

  /** In particular a load of a graph that regroups is the left-to-right merge of its depth-first linearisation. */
  lemma LoadIsMergeOfLinearisation(files: Files, rank: map<Path, nat>, p: Path)
    requires Acyclic(files, rank) && p in rank && Load(files, rank, p).Ok?
    requires AllPlainMaps(Linearise(files, rank, p)) && Regroups(files, rank, p)
    ensures Map(Load(files, rank, p).value) == MergeOnto(EMPTY, Linearise(files, rank, p))
  {
    FaithfulIffRegroups(files, rank, p);
  }

  /** Configs that agree on map versus non-map at shared paths regroup. */
  lemma {:induction false} AgreementRegroups(files: Files, rank: map<Path, nat>, p: Path)
    requires Acyclic(files, rank) && p in rank
    requires AllPlainMaps(Linearise(files, rank, p)) && AgreePairwise(Linearise(files, rank, p))
    ensures Regroups(files, rank, p)
    decreases rank[p], 1, 0
  {
    if p in files && files[p].defaults.Some? {
      var ds := files[p].defaults.value;
      SplitPlain(LineariseAll(files, rank, ds, rank[p]), [Map(files[p].body)]);
      SplitAgreement(LineariseAll(files, rank, ds, rank[p]), [Map(files[p].body)]);
      AgreementRegroupsAll(files, rank, ds, rank[p]);
    }
  }

  lemma {:induction false} AgreementRegroupsAll(files: Files, rank: map<Path, nat>, ds: seq<Path>, bound: nat)
    requires Acyclic(files, rank) && RankedBelow(ds, rank, bound)
    requires AllPlainMaps(LineariseAll(files, rank, ds, bound)) && AgreePairwise(LineariseAll(files, rank, ds, bound))
    ensures RegroupsAll(files, rank, ds, bound)
    decreases bound, 0, |ds|
  {
    if ds != [] {
      var front, last := ds[..|ds| - 1], ds[|ds| - 1];
      var xs, ys := LineariseAll(files, rank, front, bound), Linearise(files, rank, last);
      SplitPlain(xs, ys);
      SplitAgreement(xs, ys);
      AgreementRegroupsAll(files, rank, front, bound);
      AgreementRegroups(files, rank, last);
      MergedIsMap(xs);
      forall i | 0 <= i < |ys|
        ensures Agree(MergeOnto(EMPTY, xs), ys[i])
      {
        AgreeMergeOnto(EMPTY, xs, ys[i]);
      }
      AgreementChains(MergeOnto(EMPTY, xs), ys);
      ChainsAreFree(MergeOnto(EMPTY, xs), ys);
    }
  }

  lemma OverlayOfPlain(base: Entries, over: Entries)
    requires NoOverride(Map(over))
    ensures Map(Overlay(base, over)) == Merge(Map(base), Map(over))
  {
    OverlayIsMerge(base, over);
  }

  lemma SplitPlain(xs: seq<Tree>, ys: seq<Tree>)
    requires AllPlainMaps(xs + ys)
    ensures AllPlainMaps(xs) && AllPlainMaps(ys)
  {
    var all := xs + ys;
    assert forall i :: 0 <= i < |xs| ==> xs[i] == all[i];
    assert forall i :: 0 <= i < |ys| ==> ys[i] == all[|xs| + i];
  }

  lemma SplitAgreement(xs: seq<Tree>, ys: seq<Tree>)
    requires AgreePairwise(xs + ys)
    ensures AgreePairwise(xs) && AgreePairwise(ys)
    ensures forall i, j :: 0 <= i < |xs| && 0 <= j < |ys| ==> Agree(xs[i], ys[j])
  {
    var all := xs + ys;
    assert forall i :: 0 <= i < |xs| ==> xs[i] == all[i];
    assert forall i :: 0 <= i < |ys| ==> ys[i] == all[|xs| + i];
  }

  lemma OntoEmpty(cs: seq<Tree>)
    requires cs != [] && AllMaps(cs)
    ensures MergeOnto(EMPTY, cs) == MergeAll(cs)
  {
    forall k ensures At(MergeOnto(EMPTY, cs), k) == At(MergeAll(cs), k)
    {
      MergeOntoAt(EMPTY, cs, k);
      MergeAllAt(cs, k);
    }
    MergeOntoAt(EMPTY, cs, "");
    MergeAllAt(cs, "");
    SameAtAllKeys(MergeOnto(EMPTY, cs), MergeAll(cs));
  }

  /** Two blocks: merging the merged blocks is merging all their members in order exactly when the second is free of the first. */
  lemma BlocksMergeIff(xs: seq<Tree>, ys: seq<Tree>)
    requires AllPlainMaps(xs) && AllPlainMaps(ys)
    ensures Merge(MergeOnto(EMPTY, xs), MergeOnto(EMPTY, ys)) == MergeOnto(EMPTY, xs + ys)
      <==> BlockFree(MergeOnto(EMPTY, xs), ys)
  {
    MergedIsMap(xs);
    MergeOntoAppend(EMPTY, xs, ys);
    if ys == [] {
      MergeEmpty(MergeOnto(EMPTY, xs));
    } else {
      OntoEmpty(ys);
      BlockIff(MergeOnto(EMPTY, xs), ys);
    }
  }

  /** A block whose every initial part may be regrouped is free as a whole. */
  lemma ChainsAreFree(acc: Tree, cs: seq<Tree>)
    requires acc.Map? && Chains(acc, cs) && AllMaps(cs)
    ensures BlockFree(acc, cs)
  {
    if cs != [] {
      MergeBlock(acc, cs);
      OntoEmpty(cs);
      BlockIff(acc, cs);
    }
  }

  lemma {:induction false} MergedIsMap(cs: seq<Tree>)
    requires AllPlainMaps(cs)
    ensures MergeOnto(EMPTY, cs).Map?
    decreases |cs|
  {
    if cs != [] {
      MergedIsMap(cs[..|cs| - 1]);
    }
  }

  lemma {:induction false} MergeHasNoOverride(a: Tree, b: Tree)
    requires NoOverride(a) && NoOverride(b)
    ensures NoOverride(Merge(a, b))
    decreases a, b
  {
    if a.Map? && b.Map? {
      var m := Merge(a, b).entries;
      forall k | k in m
        ensures NoOverride(m[k])
      {
        if k in a.entries && k in b.entries {
          MergeHasNoOverride(a.entries[k], b.entries[k]);
        }
      }
      if OVERRIDE in a.entries && OVERRIDE in b.entries {
        MergeOfFalsy(a.entries[OVERRIDE], b.entries[OVERRIDE]);
      }
    }
  }

  lemma MergeOfFalsy(a: Tree, b: Tree)
    requires !Truthy(a) && !Truthy(b)
    ensures !Truthy(Merge(a, b))
  {
    if a.Map? && b.Map? {
      MergeEmpty(a);
    }
  }

  lemma {:induction false} MergedHasNoMarker(cs: seq<Tree>)
    requires AllPlainMaps(cs)
    ensures NoOverride(MergeOnto(EMPTY, cs))
    decreases |cs|
  {
    if cs != [] {
      MergedHasNoMarker(cs[..|cs| - 1]);
      MergeHasNoOverride(MergeOnto(EMPTY, cs[..|cs| - 1]), cs[|cs| - 1]);
    }
  }

  // ---- values at paths -----------------------------------------------------------------------

  /** The non-map value at a path of keys, if there is one. */
  function ValueAt(t: Tree, path: seq<string>): Option<Tree>
  {
    ValueOf(NodeAt(t, path))
  }

  function ValueOf(n: Node): Option<Tree>
  {
    if n.Holds? then Some(n.tree) else None
  }

  /** The value given by the last config that defines the path. */
  ghost function LastWriter(cs: seq<Tree>, path: seq<string>): Option<Tree>
  {
    if cs == [] then None
    else if ValueAt(cs[|cs| - 1], path).Some? then ValueAt(cs[|cs| - 1], path)
    else LastWriter(cs[..|cs| - 1], path)
  }

  lemma {:induction false} ValueAtMerge(a: Tree, b: Tree, path: seq<string>)
    requires Agree(a, b)
    ensures ValueAt(Merge(a, b), path) == if ValueAt(b, path).Some? then ValueAt(b, path) else ValueAt(a, path)
    decreases |path|
  {
    if path != [] && a.Map? && path[0] in a.entries && path[0] in b.entries {
      ValueAtMerge(a.entries[path[0]], b.entries[path[0]], path[1..]);
    }
  }

  lemma {:induction false} ValueAtMergeOnto(cs: seq<Tree>, path: seq<string>)
    requires AgreePairwise(cs) && AllPlainMaps(cs)
    ensures ValueAt(MergeOnto(EMPTY, cs), path) == LastWriter(cs, path)
    decreases |cs|
  {
    if cs != [] {
      var front, last := cs[..|cs| - 1], cs[|cs| - 1];
      ValueAtMergeOnto(front, path);
      AgreeMergeOnto(EMPTY, front, last);
      ValueAtMerge(MergeOnto(EMPTY, front), last, path);
    }
  }

  /** What merging a tree on top of another decides at a path: nothing, or the value there, which may be none. */
  function Decides(t: Tree, path: seq<string>): Option<Option<Tree>>
  {
    if Rules(t, path).Some? then Some(ValueOf(Rules(t, path).value)) else None
  }

  lemma MergeDecides(a: Tree, b: Tree, path: seq<string>)
    ensures ValueAt(Merge(a, b), path) == if Decides(b, path).Some? then Decides(b, path).value else ValueAt(a, path)
  {
    MergeNodes(a, b, path);
  }

  /** The value decided by the last config that decides anything at the path. */
  ghost function LastDecision(cs: seq<Tree>, path: seq<string>): Option<Tree>
  {
    if cs == [] then None
    else if Decides(cs[|cs| - 1], path).Some? then Decides(cs[|cs| - 1], path).value
    else LastDecision(cs[..|cs| - 1], path)
  }

  lemma {:induction false} MergeOntoDecides(cs: seq<Tree>, path: seq<string>)
    ensures ValueAt(MergeOnto(EMPTY, cs), path) == LastDecision(cs, path)
    decreases |cs|
  {
    if cs != [] {
      MergeOntoDecides(cs[..|cs| - 1], path);
      MergeDecides(MergeOnto(EMPTY, cs[..|cs| - 1]), cs[|cs| - 1], path);
    }
  }

  /** After the last config that defines the path, another one puts a map there or cuts it off with a non-map above. */
  ghost predicate Overruled(cs: seq<Tree>, path: seq<string>)
  {
    cs != [] && ValueAt(cs[|cs| - 1], path).None? &&
    (Decides(cs[|cs| - 1], path).Some? || Overruled(cs[..|cs| - 1], path))
  }

  lemma {:induction false} LastDecisionIff(cs: seq<Tree>, path: seq<string>)
    ensures LastDecision(cs, path) == LastWriter(cs, path) <==> LastWriter(cs, path) == None || !Overruled(cs, path)
    ensures Overruled(cs, path) ==> LastDecision(cs, path) == None
    decreases |cs|
  {
    if cs != [] {
      LastDecisionIff(cs[..|cs| - 1], path);
    }
  }

  /**
   For graphs that regroup, the last decision counts at every path; so last-writer-wins holds there exactly
   when no later config overrules the last writer.
   */
  lemma LastWriterWinsIff(files: Files, rank: map<Path, nat>, p: Path, path: seq<string>)
    requires Acyclic(files, rank) && p in rank && Load(files, rank, p).Ok?
    requires AllPlainMaps(Linearise(files, rank, p)) && Regroups(files, rank, p)
    ensures var lin := Linearise(files, rank, p);
      var value := ValueAt(Map(Load(files, rank, p).value), path);
      && value == LastDecision(lin, path)
      && (value == LastWriter(lin, path) <==> LastWriter(lin, path) == None || !Overruled(lin, path))
  {
    LoadIsMergeOfLinearisation(files, rank, p);
    MergeOntoDecides(Linearise(files, rank, p), path);
    LastDecisionIff(Linearise(files, rank, p), path);
  }

  /**
   The smallest graph in which grouping matters: `p` inherits from `a` and from `b`, and `b` from `c`. The load is
   the merge of the linearised files exactly when the three bodies may be merged in either grouping.
   */
  lemma NestedDefaultIff(files: Files, rank: map<Path, nat>, p: Path, a: Path, b: Path, c: Path)
    requires Acyclic(files, rank) && p in files && a in files && b in files && c in files
    requires files[p] == File(Some([a, b]), map[]) && files[a].defaults == None
    requires files[b].defaults == Some([c]) && files[c].defaults == None
    requires NoOverride(Map(files[a].body)) && NoOverride(Map(files[b].body)) && NoOverride(Map(files[c].body))
    ensures Load(files, rank, p).Ok?
    ensures Map(Load(files, rank, p).value) == MergeOnto(EMPTY, Linearise(files, rank, p))
      <==> Assoc(Map(files[a].body), Map(files[c].body), Map(files[b].body))
  {
    var ta, tb, tc := Map(files[a].body), Map(files[b].body), Map(files[c].body);
    assert RankedBelow([a, b], rank, rank[p]) && RankedBelow([c], rank, rank[b]);
    assert [a, b][0] == a && [a, b][1] == b && [c][0] == c;
    assert [a, b][..1] == [a] && [a][..0] == [] && [c][..0] == [];
    LoadOneParent(files, rank, c, rank[b], files[c].body);
    OverlayIsMerge(files[c].body, files[b].body);
    assert Map(Load(files, rank, b).value) == Merge(tc, tb);
    LoadOneParent(files, rank, a, rank[p], files[a].body);
    MergeHasNoOverride(tc, tb);
    OverlayIsMerge(files[a].body, Load(files, rank, b).value);
    assert Map(LoadOnto(files, rank, map[], [a, b], rank[p]).value) == Merge(ta, Merge(tc, tb));
    OverlayIsMerge(LoadOnto(files, rank, map[], [a, b], rank[p]).value, map[]);
    MergeEmpty(Merge(ta, Merge(tc, tb)));
    assert Map(Load(files, rank, p).value) == Merge(ta, Merge(tc, tb));
    NestedLinearisation(files, rank, p, a, b, c);
    MergeAssociativeIff(ta, tc, tb);
  }

  lemma NestedLinearisation(files: Files, rank: map<Path, nat>, p: Path, a: Path, b: Path, c: Path)
    requires Acyclic(files, rank) && p in files && a in files && b in files && c in files
    requires files[p] == File(Some([a, b]), map[]) && files[a].defaults == None
    requires files[b].defaults == Some([c]) && files[c].defaults == None
    ensures MergeOnto(EMPTY, Linearise(files, rank, p))
      == Merge(Merge(Map(files[a].body), Map(files[c].body)), Map(files[b].body))
  {
    var ta, tb, tc := Map(files[a].body), Map(files[b].body), Map(files[c].body);
    assert RankedBelow([a, b], rank, rank[p]) by {
      assert [a, b][0] == a && [a, b][1] == b;
    }
    assert RankedBelow([c], rank, rank[b]) by {
      assert [c][0] == c;
    }
    assert Linearise(files, rank, b) == [tc, tb] by {
      LineariseOne(files, rank, c, rank[b]);
    }
    assert LineariseAll(files, rank, [a, b], rank[p]) == [ta, tc, tb] by {
      LineariseOne(files, rank, a, rank[p]);
      assert [a, b][..1] == [a];
    }
    assert Linearise(files, rank, p) == [ta, tc, tb, EMPTY];
    hide *;
    MergeFour(ta, tc, tb);
  }

  /** A single default contributes its own linearisation. */
  lemma LineariseOne(files: Files, rank: map<Path, nat>, p: Path, bound: nat)
    requires Acyclic(files, rank) && p in rank && rank[p] < bound
    ensures RankedBelow([p], rank, bound)
    ensures LineariseAll(files, rank, [p], bound) == Linearise(files, rank, p)
  {
    hide Linearise;
    assert [p][..0] == [];
  }

  lemma MergeFour(a: Tree, c: Tree, b: Tree)
    requires a.Map? && b.Map? && c.Map?
    ensures MergeOnto(EMPTY, [a, c, b, EMPTY]) == Merge(Merge(a, c), b)
  {
    assert [a, c, b, EMPTY][..3] == [a, c, b] && [a, c, b][..2] == [a, c] && [a, c][..1] == [a] && [a][..0] == [];
    assert MergeOnto(EMPTY, []) == EMPTY;
    MergeEmpty(a);
    assert MergeOnto(EMPTY, [a]) == a;
    assert MergeOnto(EMPTY, [a, c]) == Merge(a, c);
    assert MergeOnto(EMPTY, [a, c, b]) == Merge(Merge(a, c), b);
    MergeEmpty(Merge(Merge(a, c), b));
  }

  /** Inheritance is depth-first and last-writer-wins at every path. */
  lemma LastWriterWins(files: Files, rank: map<Path, nat>, p: Path, path: seq<string>)
    requires Acyclic(files, rank) && p in rank && Load(files, rank, p).Ok?
    requires AllPlainMaps(Linearise(files, rank, p)) && AgreePairwise(Linearise(files, rank, p))
    ensures ValueAt(Map(Load(files, rank, p).value), path) == LastWriter(Linearise(files, rank, p), path)
  {
    AgreementRegroups(files, rank, p);
    LoadIsMergeOfLinearisation(files, rank, p);
    ValueAtMergeOnto(Linearise(files, rank, p), path);
  }

  /** One unmarked parent is the whole base. */
  lemma LoadOneParent(files: Files, rank: map<Path, nat>, p: Path, bound: nat, m: Entries)
    requires Acyclic(files, rank) && p in rank && rank[p] < bound
    requires Load(files, rank, p) == Ok(m) && NoTopMarker(m)
    ensures LoadOnto(files, rank, map[], [p], bound) == Ok(m)
  {
    assert [p][..0] == [];
    assert LoadOnto(files, rank, map[], [], bound) == Ok(map[]);
    assert Overlay(map[], m) == m;
  }

  // ---- where the law stops -------------------------------------------------------------------

  const SECTION_A: Entries := map["k" := Map(map["x" := Leaf(Int(1))])]
  const SECTION_B: Entries := map["k" := Map(map["y" := Leaf(Int(2))])]
  const SECTION_C: Entries := map["k" := Leaf(Int(5))]

  /** A child of `a` and `b`, where `b` itself inherits from `c`. */
  const DIAMOND: Files := map[
    "child" := File(Some(["a", "b"]), map[]),
    "a" := File(None, SECTION_A),
    "b" := File(Some(["c"]), SECTION_B),
    "c" := File(None, SECTION_C)]

  const DIAMOND_RANK: map<Path, nat> := map["child" := 2, "b" := 1, "a" := 0, "c" := 0]

  lemma DiamondIsAcyclic()
    ensures Acyclic(DIAMOND, DIAMOND_RANK)
  {
  }

  lemma NoMarkersInDiamond()
    ensures NoTopMarker(SECTION_A) && NoTopMarker(SECTION_B) && NoTopMarker(SECTION_C)
  {
  }

  /** Loading `b` gives its own section: `c`'s scalar is replaced. */
  lemma LoadB()
    ensures Acyclic(DIAMOND, DIAMOND_RANK)
    ensures Load(DIAMOND, DIAMOND_RANK, "b") == Ok(SECTION_B)
  {
    DiamondIsAcyclic();
    NoMarkersInDiamond();
    assert Load(DIAMOND, DIAMOND_RANK, "c") == Ok(SECTION_C);
    LoadOneParent(DIAMOND, DIAMOND_RANK, "c", 1, SECTION_C);
    assert Overlay(SECTION_C, SECTION_B) == SECTION_B;
  }

  /** Loading the child merges the sections of `a` and `b`. */
  lemma LoadChild()
    ensures Acyclic(DIAMOND, DIAMOND_RANK)
    ensures Load(DIAMOND, DIAMOND_RANK, "child") == Ok(Overlay(SECTION_A, SECTION_B))
  {
    LoadB();
    NoMarkersInDiamond();
    assert Load(DIAMOND, DIAMOND_RANK, "a") == Ok(SECTION_A);
    LoadOneParent(DIAMOND, DIAMOND_RANK, "a", 2, SECTION_A);
    assert ["a", "b"][..1] == ["a"];
    var both := Overlay(SECTION_A, SECTION_B);
    assert LoadOnto(DIAMOND, DIAMOND_RANK, map[], ["a", "b"], 2) == Ok(both);
    assert Overlay(both, map[]) == both;
  }

  lemma LineariseChild()
    ensures Acyclic(DIAMOND, DIAMOND_RANK)
    ensures Linearise(DIAMOND, DIAMOND_RANK, "child") == [Map(SECTION_A), Map(SECTION_C), Map(SECTION_B), EMPTY]
  {
    DiamondIsAcyclic();
    assert ["c"][..0] == [] && ["a"][..0] == [] && ["a", "b"][..1] == ["a"];
    assert LineariseAll(DIAMOND, DIAMOND_RANK, ["c"], 1) == [Map(SECTION_C)];
    assert Linearise(DIAMOND, DIAMOND_RANK, "b") == [Map(SECTION_C), Map(SECTION_B)];
    assert LineariseAll(DIAMOND, DIAMOND_RANK, ["a"], 2) == [Map(SECTION_A)];
    assert LineariseAll(DIAMOND, DIAMOND_RANK, ["a", "b"], 2) == [Map(SECTION_A), Map(SECTION_C), Map(SECTION_B)];
  }

  /**
   When configs disagree on map versus non-map, a load is not last-writer-wins over the linearised
   files: `c` replaces section `k` after `a` wrote it, yet `a`'s value survives beside `b`'s.
   */
  lemma DisagreementBreaksLastWriter()
    ensures Acyclic(DIAMOND, DIAMOND_RANK) && Load(DIAMOND, DIAMOND_RANK, "child").Ok?
    ensures ValueAt(Map(Load(DIAMOND, DIAMOND_RANK, "child").value), ["k", "x"]) == Some(Leaf(Int(1)))
    ensures ValueAt(MergeOnto(EMPTY, Linearise(DIAMOND, DIAMOND_RANK, "child")), ["k", "x"]) == None
  {
    hide Acyclic, Load, Linearise, MergeOnto, Overlay;
    LoadChild();
    ValuesOfDiamond();
    LineariseChild();
    MergeOfDiamond();
  }

  lemma ValuesOfDiamond()
    ensures ValueAt(Map(Overlay(SECTION_A, SECTION_B)), ["k", "x"]) == Some(Leaf(Int(1)))
    ensures ValueAt(Map(SECTION_B), ["k", "x"]) == None
  {
    var both := Overlay(SECTION_A, SECTION_B)["k"];
    NoMarkersInDiamond();
    assert both.Map? && both.entries["x"] == Leaf(Int(1));
    assert ["k", "x"][1..] == ["x"] && ["x"][1..] == [];
    assert ValueAt(both, ["x"]) == Some(Leaf(Int(1)));
  }

  lemma MergeOfDiamond()
    ensures MergeOnto(EMPTY, [Map(SECTION_A), Map(SECTION_C), Map(SECTION_B), EMPTY]) == Map(SECTION_B)
  {
    var a, b, c := Map(SECTION_A), Map(SECTION_B), Map(SECTION_C);
    MergeFour(a, c, b);
    assert Merge(a, c).entries == SECTION_C;
    assert Merge(c, b).entries == SECTION_B;
  }

  // ---- minimising a file does not change what it loads to --------------------------------------

  /** The files with `p`'s body pruned against its expanded base, its `defaults` kept. */
  ghost function Minimised(files: Files, p: Path, base: Entries): Files
    requires p in files
  {
    files[p := File(files[p].defaults, PruneEntries(files[p].body, base))]
  }

  /** Rewriting a file does not change what lower-ranked files load to. */
  lemma {:induction false} LoadFrame(files: Files, files': Files, rank: map<Path, nat>, p: Path, q: Path)
    requires Acyclic(files, rank) && Acyclic(files', rank) && p in rank && q in rank && rank[q] < rank[p]
    requires files.Keys == files'.Keys && forall x :: x in files && x != p ==> files'[x] == files[x]
    ensures Load(files', rank, q) == Load(files, rank, q)
    decreases rank[q], 1, 0
  {
    if q in files && files[q].defaults.Some? {
      LoadOntoFrame(files, files', rank, p, files[q].defaults.value, rank[q]);
    }
  }

  lemma {:induction false} LoadOntoFrame(files: Files, files': Files, rank: map<Path, nat>, p: Path, ds: seq<Path>, bound: nat)
    requires Acyclic(files, rank) && Acyclic(files', rank) && p in rank && bound <= rank[p] && RankedBelow(ds, rank, bound)
    requires files.Keys == files'.Keys && forall x :: x in files && x != p ==> files'[x] == files[x]
    ensures LoadOnto(files', rank, map[], ds, bound) == LoadOnto(files, rank, map[], ds, bound)
    decreases bound, 0, |ds|
  {
    if ds != [] {
      LoadOntoFrame(files, files', rank, p, ds[..|ds| - 1], bound);
      LoadFrame(files, files', rank, p, ds[|ds| - 1]);
    }
  }

  /** A file that inherits from exactly one base. */
  predicate HasSingleDefault(files: Files, p: Path)
  {
    p in files && files[p].defaults.Some? && |files[p].defaults.value| == 1
  }

  function SingleDefault(files: Files, p: Path): Path
    requires HasSingleDefault(files, p)
  {
    files[p].defaults.value[0]
  }

  /** The base as its child sees it: its own sections' markers have been popped. */
  function Unmarked(base: Entries): Entries
  {
    Stripped(base, {})
  }

  lemma LoadOfSingleDefault(files: Files, rank: map<Path, nat>, p: Path, base: Entries)
    requires Acyclic(files, rank) && HasSingleDefault(files, p)
    requires Load(files, rank, SingleDefault(files, p)) == Ok(base)
    ensures Load(files, rank, p) == Ok(Overlay(Unmarked(base), files[p].body))
  {
    var q := SingleDefault(files, p);
    assert files[p].defaults.value == [q];
    assert [q][..0] == [];
    assert Overlay(map[], base) == Unmarked(base);
    assert LoadOnto(files, rank, map[], [q], rank[p]) == Ok(Unmarked(base));
  }

  /** No child section carries an empty marker where the base's section carries a true one. */
  predicate KeepsMarkers(child: Entries, base: Entries)
  {
    HasOverride(child) ||
    forall k :: k in child && k in base && IsOverriding(base[k]) && child[k].Map? && OVERRIDE in child[k].entries
      ==> !IsEmpty(child[k].entries[OVERRIDE])
  }

  lemma FalsyIsNotTruthy(a: Tree, b: Tree)
    requires !Truthy(a) && Truthy(b)
    ensures !PyEq(a, b)
  {
  }

  /** Pruning a section against a marked base section is pruning it against the unmarked one, unless it loses a marker. */
  lemma PruneAgainstMarked(a: Tree, b: Tree)
    requires a.Map? && IsOverriding(b) && (OVERRIDE in a.entries ==> !IsEmpty(a.entries[OVERRIDE]))
    ensures Prune(a, b) == Prune(a, WithoutMarker(b))
  {
    var bare := WithoutMarker(b);
    if !HasOverride(a.entries) {
      if OVERRIDE in a.entries {
        MarkerIsKept(a.entries[OVERRIDE], b.entries[OVERRIDE]);
      }
      assert forall k :: k in a.entries && k != OVERRIDE ==>
        (k in b.entries <==> k in bare.entries) && (k in b.entries ==> b.entries[k] == bare.entries[k]);
      SameEntriesPruned(a, b, bare);
    }
  }

  lemma MarkerIsKept(v: Tree, w: Tree)
    requires !Truthy(v) && !IsEmpty(v) && Truthy(w)
    ensures Prune(v, w) == Some(v)
  {
    FalsyIsNotTruthy(v, w);
  }

  /** Bases that agree outside a kept marker prune alike. */
  lemma SameEntriesPruned(a: Tree, b: Tree, bare: Tree)
    requires a.Map? && b.Map? && bare.Map? && !HasOverride(a.entries) && OVERRIDE !in bare.entries
    requires forall k :: k in a.entries && k != OVERRIDE ==>
      (k in b.entries <==> k in bare.entries) && (k in b.entries ==> b.entries[k] == bare.entries[k])
    requires OVERRIDE in a.entries && OVERRIDE in b.entries ==>
      !IsEmpty(a.entries[OVERRIDE]) && Prune(a.entries[OVERRIDE], b.entries[OVERRIDE]) == Some(a.entries[OVERRIDE])
    ensures Prune(a, b) == Prune(a, bare)
  {
    hide Prune, HasOverride;
    PrunedEntries(a, b);
    PrunedEntries(a, bare);
    var m, n := Prune(a, b).value.entries, Prune(a, bare).value.entries;
    forall k | k in a.entries
      ensures PrunedEntry(a.entries, b.entries, k) == PrunedEntry(a.entries, bare.entries, k)
    {
      if k == OVERRIDE && k in b.entries { assert !IsDropped(Some(a.entries[k])); }
    }
    hide PrunedEntry;
    assert m.Keys == n.Keys;
    assert m == n;
  }

  /** What pruning leaves of one entry. */
  function PrunedEntry(a: Entries, b: Entries, k: string): Option<Tree>
    requires k in a
  {
    if k !in b then Some(a[k]) else if IsDropped(Prune(a[k], b[k])) then None else Prune(a[k], b[k])
  }

  lemma PrunedEntries(a: Tree, b: Tree)
    requires a.Map? && b.Map? && !HasOverride(a.entries)
    ensures var m := Prune(a, b);
      && m.Some? && m.value.Map? && (forall k :: k in m.value.entries ==> k in a.entries)
      && (forall k :: k in a.entries ==> (k in m.value.entries <==> PrunedEntry(a.entries, b.entries, k).Some?))
      && (forall k :: k in m.value.entries ==> PrunedEntry(a.entries, b.entries, k) == Some(m.value.entries[k]))
  {
  }

  lemma PruneAgainstUnmarked(child: Entries, base: Entries)
    requires KeepsMarkers(child, base)
    ensures PruneEntries(child, base) == PruneEntries(child, Unmarked(base))
  {
    if !HasOverride(child) {
      forall k | k in child && k in base
        ensures Prune(child[k], base[k]) == Prune(child[k], Unmarked(base)[k])
      {
        if IsOverriding(base[k]) && child[k].Map? {
          PruneAgainstMarked(child[k], base[k]);
        }
      }
      assert PruneEntries(child, base) == PruneEntries(child, Unmarked(base));
    }
  }

  /** An empty marker that meets a true one is pruned away, although the child's base no longer has one. */
  lemma EmptyMarkerIsLost(child: Entries, base: Entries, k: string)
    requires !HasOverride(child) && k in child && k in base && IsOverriding(base[k])
    requires child[k].Map? && OVERRIDE in child[k].entries && IsEmpty(child[k].entries[OVERRIDE])
    ensures Overlay(Unmarked(base), PruneEntries(child, base)) != Overlay(Unmarked(base), child)
  {
    var a, b := child[k], base[k];
    var bare := WithoutMarker(b);
    var v := a.entries[OVERRIDE];
    assert !Truthy(v) && !IsOverriding(a);
    assert IsDropped(Prune(v, b.entries[OVERRIDE]));
    assert OVERRIDE !in Prune(a, b).value.entries;
    var pruned := PruneEntries(child, base);
    assert k in pruned ==> pruned[k] == Prune(a, b).value;
    var before, after := Overlay(Unmarked(base), child), Overlay(Unmarked(base), pruned);
    assert before[k] == Merge(bare, a) && OVERRIDE in before[k].entries;
    assert after[k] == (if k in pruned then Merge(bare, pruned[k]) else bare);
    assert OVERRIDE !in after[k].entries;
  }

  /**
   End to end: rewriting a file that inherits from one base with its minimised form leaves what it loads to
   unchanged exactly when pruning was safe against the base as the file sees it, and loses no empty marker.
   */
  lemma MinimiseKeepsLoad(files: Files, rank: map<Path, nat>, p: Path)
    requires Acyclic(files, rank) && HasSingleDefault(files, p)
    requires Load(files, rank, SingleDefault(files, p)).Ok?
    ensures var base := Load(files, rank, SingleDefault(files, p)).value;
            && Acyclic(Minimised(files, p, base), rank)
            && (Load(Minimised(files, p, base), rank, p) == Load(files, rank, p)
                <==> SafeToPrune(Map(files[p].body), Map(Unmarked(base))) && KeepsMarkers(files[p].body, base))
  {
    var q := SingleDefault(files, p);
    var base := Load(files, rank, q).value;
    var files' := Minimised(files, p, base);
    assert Acyclic(files', rank);
    LoadFrame(files, files', rank, p, q);
    LoadOfSingleDefault(files, rank, p, base);
    LoadOfSingleDefault(files', rank, p, base);
    var body := files[p].body;
    if KeepsMarkers(body, base) {
      PruneAgainstUnmarked(body, base);
      MinimisePreservesMeaning(body, Unmarked(base));
    } else {
      var k :| k in body && k in base && IsOverriding(base[k]) && body[k].Map? && OVERRIDE in body[k].entries
            && IsEmpty(body[k].entries[OVERRIDE]);
      EmptyMarkerIsLost(body, base, k);
    }
  }
}
