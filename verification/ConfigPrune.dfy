/** Minimising a config: dropping what its base already says, without changing what the pair means. */
module ConfigPrune {
  import opened Prelude
  import opened ConfigTree

  /** `_prune_equal`; None stands for the REMOVE sentinel. */
  function Prune(a: Tree, b: Tree): Option<Tree>
    decreases a
  {
    if a.Map? && b.Map? then
      if HasOverride(a.entries) then Some(a)
      else Some(Map(map k | k in a.entries && (k in b.entries ==> !IsDropped(Prune(a.entries[k], b.entries[k]))) ::
        if k in b.entries then Prune(a.entries[k], b.entries[k]).value else a.entries[k]))
    else if PyEq(a, b) then None
    else Some(a)
  }

  /** Equal to the base, or an empty container after pruning. */
  predicate IsDropped(p: Option<Tree>)
  {
    p == None || IsEmpty(p.value)
  }

  function PruneEntries(child: Entries, base: Entries): Entries
  {
    Prune(Map(child), Map(base)).value.entries
  }

  /**
   What a caller can check before minimising: wherever child and base meet and are not both
   maps, a child value that Python calls equal to the base's, or that is an empty container,
   is the very same value.
   */
  predicate SafeToPrune(a: Tree, b: Tree)
    decreases a
  {
    if a.Map? && b.Map? then
      HasOverride(a.entries) || forall k :: k in a.entries && k in b.entries ==> SafeToPrune(a.entries[k], b.entries[k])
    else PyEq(a, b) || IsEmpty(a) ==> a == b
  }

  // ---- meaning is preserved exactly on safe pairs --------------------------------------------

  /** What merging on top of `b` sees at a key of both, before and after pruning. */
  function Effect(b: Tree, p: Option<Tree>): Tree
  {
    if IsDropped(p) then b else Merge(b, p.value)
  }

  lemma {:induction false} PruneEffect(a: Tree, b: Tree)
    ensures Effect(b, Prune(a, b)) == Merge(b, a) <==> SafeToPrune(a, b)
    decreases a
  {
    if a.Map? && b.Map? {
      if HasOverride(a.entries) {
        assert !IsEmpty(a);
      } else {
        PruneMapEffect(a, b);
      }
    }
  }

  lemma {:induction false} PruneMapEffect(a: Tree, b: Tree)
    requires a.Map? && b.Map? && !HasOverride(a.entries)
    ensures Merge(b, Prune(a, b).value) == Effect(b, Prune(a, b))
    ensures Merge(b, Prune(a, b).value) == Merge(b, a) <==> SafeToPrune(a, b)
    decreases a, 0
  {
    var p := Prune(a, b).value;
    MergeEmpty(b);
    var before, after := Merge(b, a).entries, Merge(b, p).entries;
    assert before.Keys == after.Keys;
    forall k | k in a.entries && k in b.entries
      ensures after[k] == Effect(b.entries[k], Prune(a.entries[k], b.entries[k]))
      ensures after[k] == before[k] <==> SafeToPrune(a.entries[k], b.entries[k])
    {
      PruneEffect(a.entries[k], b.entries[k]);
    }
    forall k | k in before && !(k in a.entries && k in b.entries)
      ensures after[k] == before[k]
    {
    }
  }

  /**
   Minimising preserves meaning exactly on safe pairs: overlaying the pruned child on the base
   gives the same config as overlaying the full child, including sections that carry markers.
   */
  lemma MinimisePreservesMeaning(child: Entries, base: Entries)
    ensures Overlay(base, PruneEntries(child, base)) == Overlay(base, child) <==> SafeToPrune(Map(child), Map(base))
  {
    if !HasOverride(child) {
      var pruned := PruneEntries(child, base);
      var before, after := Overlay(base, child), Overlay(base, pruned);
      assert before.Keys == after.Keys;
      forall k | k in child && k in base
        ensures after[k] == before[k] <==> SafeToPrune(child[k], base[k])
      {
        PruneEffect(child[k], base[k]);
        PruneKeepsOverriding(child[k], base[k]);
      }
      forall k | k in before && !(k in child && k in base)
        ensures after[k] == before[k]
      {
      }
    }
  }

  lemma EmptyMapPrunesAway(a: Tree, b: Tree)
    ensures a == Map(map[]) ==> IsDropped(Prune(a, b))
  {
    if a == Map(map[]) && b.Map? {
      assert Prune(a, b).value.entries == map[];
    }
  }

  /** Pruning a section neither adds nor removes a true marker. */
  lemma PruneKeepsOverriding(a: Tree, b: Tree)
    ensures IsOverriding(a) ==> Prune(a, b) == Some(a)
    ensures !IsOverriding(a) && Prune(a, b).Some? ==> !IsOverriding(Prune(a, b).value)
  {
    if a.Map? && b.Map? && !HasOverride(a.entries) {
      var p := Prune(a, b).value.entries;
      if OVERRIDE in p {
        assert !Truthy(a.entries[OVERRIDE]);
        if OVERRIDE in b.entries {
          EmptyMapPrunesAway(a.entries[OVERRIDE], b.entries[OVERRIDE]);
        }
      }
    }
  }

  /** An empty container that replaces something else is lost. */
  lemma EmptyContainerIsLost()
    ensures var child: Entries := map["a" := List([])];
            var base: Entries := map["a" := List([Leaf(Int(1))])];
            Overlay(base, PruneEntries(child, base)) != Overlay(base, child)
  {
    var child: Entries := map["a" := List([])];
    var base: Entries := map["a" := List([Leaf(Int(1))])];
    assert Prune(child["a"], base["a"]) == Some(List([]));
    assert Overlay(base, child)["a"] == List([]);
    assert "a" !in PruneEntries(child, base);
    assert Overlay(base, PruneEntries(child, base))["a"] == List([Leaf(Int(1))]);
  }

  /** `true` on top of `1` is lost, because Python calls them equal. */
  lemma BooleanOverOneIsLost()
    ensures var child: Entries := map["a" := Leaf(Bool(true))];
            var base: Entries := map["a" := Leaf(Int(1))];
            Overlay(base, PruneEntries(child, base)) != Overlay(base, child)
  {
    var child: Entries := map["a" := Leaf(Bool(true))];
    var base: Entries := map["a" := Leaf(Int(1))];
    assert Overlay(base, child)["a"] == Leaf(Bool(true));
    assert "a" !in PruneEntries(child, base);
    assert Overlay(base, PruneEntries(child, base))["a"] == Leaf(Int(1));
  }

  /** A number over an equal one of another type is lost too. */
  lemma FloatOverIntIsLost(i: int)
    ensures var child: Entries := map["a" := Leaf(Float(i as real))];
            var base: Entries := map["a" := Leaf(Int(i))];
            Overlay(base, PruneEntries(child, base)) != Overlay(base, child)
  {
    var child: Entries := map["a" := Leaf(Float(i as real))];
    var base: Entries := map["a" := Leaf(Int(i))];
    assert Overlay(base, child)["a"] == Leaf(Float(i as real));
    assert Prune(child["a"], base["a"]) == None;
    assert "a" !in PruneEntries(child, base);
    assert Overlay(base, PruneEntries(child, base))["a"] == Leaf(Int(i));
  }

  // ---- configs on which pruning is always safe -------------------------------------------------

  /** Where both trees have a number in the same place, the two are of the same type. */
  predicate SameKinds(a: Tree, b: Tree)
    decreases a
  {
    match (a, b)
    case (Leaf(v), Leaf(w)) => IsNumber(v) && IsNumber(w) ==> (v.Bool? <==> w.Bool?) && (v.Int? <==> w.Int?)
    case (List(xs), List(ys)) => forall i :: 0 <= i < |xs| && i < |ys| ==> SameKinds(xs[i], ys[i])
    case (Map(m), Map(n)) => forall k :: k in m && k in n ==> SameKinds(m[k], n[k])
    case _ => true
  }

  lemma {:induction false} EqualOfSameKinds(a: Tree, b: Tree)
    requires PyEq(a, b) && SameKinds(a, b)
    ensures a == b
    decreases a
  {
    match (a, b)
    case (List(xs), List(ys)) =>
      forall i | 0 <= i < |xs| ensures xs[i] == ys[i] { EqualOfSameKinds(xs[i], ys[i]); }
    case (Map(m), Map(n)) =>
      forall k | k in m ensures m[k] == n[k] { EqualOfSameKinds(m[k], n[k]); }
      assert m == n;
    case _ =>
  }

  /** No empty container outside lists. */
  predicate NothingEmpty(t: Tree)
  {
    !IsEmpty(t) && (t.Map? ==> forall k :: k in t.entries ==> NothingEmpty(t.entries[k]))
  }

  /** Where types agree and nothing is empty, minimising never changes what a config means. */
  lemma {:induction false} TypedConfigsAreSafe(a: Tree, b: Tree)
    requires SameKinds(a, b) && NothingEmpty(a)
    ensures SafeToPrune(a, b)
    decreases a
  {
    if a.Map? && b.Map? {
      forall k | k in a.entries && k in b.entries
        ensures SafeToPrune(a.entries[k], b.entries[k])
      {
        TypedConfigsAreSafe(a.entries[k], b.entries[k]);
      }
    } else if PyEq(a, b) {
      EqualOfSameKinds(a, b);
    }
  }

  // ---- pruning again changes nothing ---------------------------------------------------------

  lemma {:induction false} PruneIdempotent(a: Tree, b: Tree)
    requires Prune(a, b).Some?
    ensures Prune(Prune(a, b).value, b) == Prune(a, b)
    decreases a
  {
    if a.Map? && b.Map? && !HasOverride(a.entries) {
      PruneKeepsOverriding(a, b);
      var p := Prune(a, b).value;
      var q := Prune(p, b).value;
      forall k | k in p.entries
        ensures k in q.entries && q.entries[k] == p.entries[k]
      {
        if k in b.entries {
          PruneIdempotent(a.entries[k], b.entries[k]);
        }
      }
      assert q.entries == p.entries;
    }
  }

  // ---- minimising a file -------------------------------------------------------------------------

  datatype MinimizeError = NoDefaults | DefaultsNotAString

  /** The base is inferred from the file, which must name exactly one, by a string. */
  function InferBase(child: Entries): Result<string, MinimizeError>
  {
    if "defaults" !in child || child["defaults"] == Leaf(Null) then Err(NoDefaults)
    else
      match child["defaults"]
      case Leaf(Str(path)) => Ok(path)
      case _ => Err(DefaultsNotAString)
  }

  /** `_minimize_one` on trees: `defaults` is set aside, the rest pruned against the expanded base, `defaults` put back. */
  function MinimizeOne(child: Entries, base: Entries): Result<Entries, MinimizeError>
  {
    match InferBase(child)
    case Err(e) => Err(e)
    case Ok(_) => Ok(PruneEntries(child - {"defaults"}, base)["defaults" := child["defaults"]])
  }

  /** `_minimize_check_one` on trees: minimising would leave the file as it is. */
  predicate MinimizeCheckOne(child: Entries, base: Entries)
  {
    MinimizeOne(child, base) == Ok(child)
  }

  /**
   Minimising a file fails exactly when it does not name its base by a string. Otherwise the file keeps its `defaults`, is
   the old one with keys deleted, and its other entries mean the same on the base exactly when pruning them was safe.
   */
  lemma MinimisedFile(child: Entries, base: Entries)
    ensures MinimizeOne(child, base).Err? <==> !("defaults" in child && child["defaults"].Leaf? && child["defaults"].value.Str?)
    ensures MinimizeOne(child, base) == Err(NoDefaults) <==> "defaults" !in child || child["defaults"] == Leaf(Null)
    ensures MinimizeOne(child, base).Ok? ==>
      var file := MinimizeOne(child, base).value;
      && "defaults" in file && file["defaults"] == child["defaults"] && Deletes(Map(file), Map(child))
      && (Overlay(base, file - {"defaults"}) == Overlay(base, child - {"defaults"})
          <==> SafeToPrune(Map(child - {"defaults"}), Map(base)))
  {
    var body := child - {"defaults"};
    if MinimizeOne(child, base).Ok? {
      var file := MinimizeOne(child, base).value;
      PruneDeletes(Map(body), Map(base));
      assert "defaults" !in PruneEntries(body, base);
      assert file - {"defaults"} == PruneEntries(body, base);
      MinimisePreservesMeaning(body, base);
    }
  }

  /** A minimised file passes the check. */
  lemma MinimisedPassesCheck(child: Entries, base: Entries)
    requires MinimizeOne(child, base).Ok?
    ensures MinimizeCheckOne(MinimizeOne(child, base).value, base)
  {
    var body := child - {"defaults"};
    PruneIdempotent(Map(body), Map(base));
    var pruned := PruneEntries(body, base);
    assert "defaults" !in pruned by { PruneDeletes(Map(body), Map(base)); }
    assert MinimizeOne(child, base).value - {"defaults"} == pruned;
  }

  // ---- the pruned child is the least one -------------------------------------------------------

  /** `s` is `c` with some keys deleted, at any depth of maps. */
  predicate Deletes(s: Tree, c: Tree)
    decreases c
  {
    if s.Map? && c.Map? then
      forall k :: k in s.entries ==> k in c.entries && Deletes(s.entries[k], c.entries[k])
    else s == c
  }

  lemma {:induction false} DeletesReflexive(t: Tree)
    ensures Deletes(t, t)
  {
    if t.Map? {
      forall k | k in t.entries ensures Deletes(t.entries[k], t.entries[k]) { DeletesReflexive(t.entries[k]); }
    }
  }

  /** The pruned child is the child with keys deleted. */
  lemma {:induction false} PruneDeletes(a: Tree, b: Tree)
    requires Prune(a, b).Some?
    ensures Deletes(Prune(a, b).value, a)
    decreases a
  {
    DeletesReflexive(a);
    if a.Map? && b.Map? && !HasOverride(a.entries) {
      var p := Prune(a, b).value.entries;
      forall k | k in p
        ensures Deletes(p[k], a.entries[k])
      {
        if k in b.entries { PruneDeletes(a.entries[k], b.entries[k]); } else { DeletesReflexive(a.entries[k]); }
      }
    }
  }

  /** If the base alone already means what base and child mean, pruning leaves nothing of the child. */
  lemma KeptNeedsKey(a: Tree, b: Tree)
    requires a.Map? && b.Map? && NoOverride(a) && Merge(b, a) == b
    ensures IsDropped(Prune(a, b))
    decreases a, 1
  {
    MergeEmpty(b);
    PruneIsLeast(Map(map[]), a, b);
    assert Prune(a, b).value.entries == map[];
  }

  lemma {:induction false} PruneIsLeast(s: Tree, a: Tree, b: Tree)
    requires s.Map? && a.Map? && b.Map? && NoOverride(a) && Deletes(s, a) && Merge(b, s) == Merge(b, a)
    ensures Deletes(Prune(a, b).value, s)
    decreases a, 0
  {
    var p := Prune(a, b).value.entries;
    var ms, ma := Merge(b, s).entries, Merge(b, a).entries;
    forall k | k in p
      ensures k in s.entries && Deletes(p[k], s.entries[k])
    {
      assert k in ma && k in ms && ms[k] == ma[k];
      assert ms.Keys == b.entries.Keys + s.entries.Keys;
      if k !in b.entries {
        assert k in s.entries;
        DeletesReflexive(a.entries[k]);
      } else if a.entries[k].Map? && b.entries[k].Map? {
        if k !in s.entries {
          KeptNeedsKey(a.entries[k], b.entries[k]);
        } else {
          assert Prune(a.entries[k], b.entries[k]) == Some(p[k]);
          PruneIsLeast(s.entries[k], a.entries[k], b.entries[k]);
        }
      } else {
        PyEqReflexive(a.entries[k]);
        var kept := Prune(a.entries[k], b.entries[k]);
        assert kept == Some(a.entries[k]) && p[k] == a.entries[k];
        assert ma[k] == a.entries[k];
        assert k in s.entries;
        assert s.entries[k] == a.entries[k];
        DeletesReflexive(a.entries[k]);
      }
    }
  }

  /**
   Without markers, the pruned child lies inside every key-deletion of the child that means the
   same on this base: nothing more can be deleted.
   */
  lemma MinimisedIsLeast(part: Entries, child: Entries, base: Entries)
    requires NoOverride(Map(child)) && Deletes(Map(part), Map(child))
    requires Overlay(base, part) == Overlay(base, child)
    ensures Deletes(Map(PruneEntries(child, base)), Map(part))
  {
    DeletesKeepsNoOverride(Map(part), Map(child));
    OverlayIsMerge(base, part);
    OverlayIsMerge(base, child);
    PruneIsLeast(Map(part), Map(child), Map(base));
  }

  lemma DeletesKeepsNoOverride(s: Tree, c: Tree)
    requires s.Map? && c.Map? && NoOverride(c) && Deletes(s, c)
    ensures NoTopMarker(s.entries)
  {
    forall k | k in s.entries
      ensures !IsOverriding(s.entries[k])
    {
      var x, y := s.entries[k], c.entries[k];
      if x.Map? && OVERRIDE in x.entries {
        assert !Truthy(y.entries[OVERRIDE]);
        assert Deletes(x.entries[OVERRIDE], y.entries[OVERRIDE]);
        if x.entries[OVERRIDE].Map? {
          assert x.entries[OVERRIDE].entries == map[];
        }
      }
    }
  }
}
