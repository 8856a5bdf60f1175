/**
 * Properties of `merge_maps`: merging into an empty view copies the tree,
 * merging a tree into itself changes nothing, what the view holds is never
 * lost or overridden, and exactly which keys the merged view has.
 */
module AccessMergeProperties {
  import opened Wrappers
  import opened AccessTrees
  import opened AccessMerge

  /** The first tree merged into the empty view (with no inherited default) is copied as it is. */
  lemma {:induction false} MergeIntoEmpty(a: Entries)
    requires Canonical(a)
    ensures Merge(map[], a, 0) == a
    decreases Branch(a)
  {
    var e: Entries := map[];
    var r := Merge(e, a, 0);
    forall k ensures At(r, k) == At(a, k) {
      MergeAt(e, a, 0, k);
      if k in a && k != "*" && a[k].Branch? {
        assert CanonicalNode(a[k]);
        MergeIntoEmpty(a[k].entries);
      }
    }
    SameEntries(r, a);
  }

  /** Merging a tree into a view that equals it leaves the view as it is, whatever default is inherited. */
  lemma {:induction false} MergeSelf(x: Entries, dflt: int)
    requires Canonical(x)
    ensures Merge(x, x, dflt) == x
    decreases Branch(x)
  {
    var r := Merge(x, x, dflt);
    forall k ensures At(r, k) == At(x, k) {
      MergeAt(x, x, dflt, k);
      if k in x && k != "*" && x[k].Branch? {
        assert CanonicalNode(x[k]);
        MergeSelf(x[k].entries, PassedDefault(x, dflt));
      }
    }
    SameEntries(r, x);
  }

  /**
   * The view keeps what it holds: every key stays, a level stays as it is,
   * and a view with a `*` gains no key at all and keeps its `*`.
   */
  lemma MergeKeepsView(d: Entries, a: Entries, dflt: int)
    requires Canonical(d)
    ensures var r := Merge(d, a, dflt);
      && (forall k :: k in d ==> k in r)
      && (forall k :: k in d && d[k].Leaf? ==> k in r && r[k] == d[k])
      && ("*" in d ==> r.Keys == d.Keys && r["*"] == d["*"])
  {
    var r := Merge(d, a, dflt);
    forall k | k in d
      ensures k in r && (d[k].Leaf? ==> r[k] == d[k])
    {
      assert CanonicalNode(d[k]);
      MergeAt(d, a, dflt, k);
    }
    if "*" in d {
      assert CanonicalNode(d["*"]);
      forall k | k in r ensures k in d {
        MergeAt(d, a, dflt, k);
      }
    }
  }

  /**
   * The keys of the merged view: the view's own, and, when the view has no
   * `*`, the tree's, the tree's `*` only when no default is inherited.
   */
  lemma MergeKeys(d: Entries, a: Entries, dflt: int, k: string)
    requires Canonical(d) && Canonical(a)
    ensures k in Merge(d, a, dflt) <==> k in d || (k in a && "*" !in d && (k != "*" || dflt == 0))
  {
    MergeAt(d, a, dflt, k);
    if k in d {
      assert CanonicalNode(d[k]);
    }
    if k in a {
      assert CanonicalNode(a[k]);
    }
    if "*" in d {
      assert CanonicalNode(d["*"]);
    }
  }

  /** Merging canonical trees gives a canonical view: no entry anywhere holds 0. */
  lemma {:induction false} MergeCanonical(d: Entries, a: Entries, dflt: int)
    requires Canonical(d) && Canonical(a)
    ensures Canonical(Merge(d, a, dflt))
    decreases Branch(a)
  {
    var r := Merge(d, a, dflt);
    forall k | k in r ensures CanonicalNode(r[k]) {
      MergeAt(d, a, dflt, k);
      if k in d {
        assert CanonicalNode(d[k]);
      }
      if k in a {
        assert CanonicalNode(a[k]);
      }
      if k != "*" && k in a && a[k].Branch? {
        var ndfl := PassedDefault(d, dflt);
        if k in d && d[k].Branch? {
          MergeCanonical(d[k].entries, a[k].entries, ndfl);
        } else if k !in d {
          MergeCanonical(map[], a[k].entries, ndfl);
        }
      }
    }
  }
}
