/**
 * `merge_maps` (lines 1348-1382): the combined view `show_access` builds by
 * folding a principal's trees into one mapping, highest priority first. An
 * entry the view already holds wins over the tree being merged in; below a
 * view mapping that has its own `*`, nothing new is added; a tree's `*` is
 * copied only where no default of the view covers it yet. The daemon edits
 * the view in place; here each level is a value, rebuilt entry by entry.
 */
module AccessMerge {
  import opened Wrappers
  import opened AccessTrees
  import opened StringOrder

  /** `m[k]` as a mapping entry: absent, or its node. */
  function At(m: Entries, k: string): Option<Node>
  {
    if k in m then Some(m[k]) else None
  }

  /** An entry LPC reads as true: present and not the integer 0. */
  predicate Truthy(m: Entries, k: string)
  {
    Get(m, k) != Leaf(0)
  }

  /** `m[k] = n`: assigning the integer 0 deletes the entry. */
  function Assign(m: Entries, k: string, n: Node): Entries
  {
    if n == Leaf(0) then m - {k} else m[k := n]
  }

  /**
   * One turn of the loop at lines 1358-1378 for the key k: cur is what the
   * view holds at k, star whether the view has a `*`, w the entry of the
   * tree, ndfl the default passed down. The result is what the view holds
   * at k afterwards.
   */
  function Slot(cur: Option<Node>, star: bool, w: Node, ndfl: int): Option<Node>
    decreases w, 2
  {
    var v := if cur.Some? then cur.value else Leaf(0);
    if v != Leaf(0) then
      match v
      case Leaf(_) => cur
      case Branch(ve) =>
        match w
        case Leaf(_) => if Truthy(ve, "*") then cur else Some(Branch(Assign(ve, "*", w)))
        case Branch(we) => Some(Branch(Merge(ve, we, ndfl)))
    else if star then cur
    else
      match w
      case Branch(we) => Some(Branch(Merge(map[], we, ndfl)))
      case Leaf(x) => if x == 0 then None else Some(w)
  }

  /** The view's entry k once the loop is done: changed only for the tree's keys other than `*`. */
  function Entry(d: Entries, a: Entries, ndfl: int, k: string): Option<Node>
    decreases Branch(a), 0
  {
    if k != "*" && k in a then Slot(At(d, k), Truthy(d, "*"), a[k], ndfl) else At(d, k)
  }

  /** The default handed to the merges one level down: the view's `*`, else the one inherited. */
  function PassedDefault(d: Entries, dflt: int): int
  {
    if LevelAt(d, "*") != 0 then LevelAt(d, "*") else dflt
  }

  /** `merge_maps(dmap, amap, dflt)`: the view d with the tree a merged into it. */
  function Merge(d: Entries, a: Entries, dflt: int): Entries
    decreases Branch(a), 1
  {
    var ndfl := PassedDefault(d, dflt);
    var body := map k | k in d.Keys + a.Keys && Entry(d, a, ndfl, k).Some? :: Entry(d, a, ndfl, k).value;
    if !Truthy(body, "*") && dflt == 0 && Truthy(a, "*") then body["*" := a["*"]] else body
  }

  /** Two mappings that agree on every key are equal. */
  lemma SameEntries(m1: Entries, m2: Entries)
    requires forall k :: At(m1, k) == At(m2, k)
    ensures m1 == m2
  {
    assert m1.Keys == m2.Keys by {
      forall k ensures k in m1 <==> k in m2 {
        assert At(m1, k).Some? == At(m2, k).Some?;
      }
    }
    forall k | k in m1 ensures m1[k] == m2[k] {
      assert At(m1, k) == At(m2, k);
    }
  }

  /** What Merge holds at each key. */
  lemma MergeAt(d: Entries, a: Entries, dflt: int, k: string)
    ensures At(Merge(d, a, dflt), k) ==
      if k == "*" && !Truthy(d, "*") && dflt == 0 && Truthy(a, "*") then Some(a["*"])
      else Entry(d, a, PassedDefault(d, dflt), k)
  {
    var ndfl := PassedDefault(d, dflt);
    var body := map k | k in d.Keys + a.Keys && Entry(d, a, ndfl, k).Some? :: Entry(d, a, ndfl, k).value;
    assert Entry(d, a, ndfl, "*") == At(d, "*");
    assert Get(body, "*") == Get(d, "*");
    if k !in d.Keys + a.Keys {
      assert Entry(d, a, ndfl, k) == None;
    }
  }

  /**
   * merge_maps as the daemon runs it: the tree's keys other than `*` in
   * `map_indices` order, each changing the view at that key alone, then the
   * tree's `*` when nothing covers it.
   */
  method MergeMaps(d: Entries, a: Entries, dflt: int) returns (r: Entries)
    ensures r == Merge(d, a, dflt)
    decreases Branch(a), 1
  {
    var elts := SortedKeys(a.Keys - {"*"});
    var ndfl := PassedDefault(d, dflt);
    r := d;
    var i := 0;
    while i < |elts|
      invariant 0 <= i <= |elts|
      invariant forall k :: At(r, k) == if k in elts[..i] then Entry(d, a, ndfl, k) else At(d, k)
    {
      var k := elts[i];
      assert k !in elts[..i] by {
        forall x | 0 <= x < i ensures elts[x] != k { }
      }
      assert k in a && k != "*" by {
        assert elts[i] in elts;
      }
      r := MergeKey(r, d, a, ndfl, k);
      assert forall x :: x in elts[..i + 1] <==> x in elts[..i] || x == k;
      i := i + 1;
    }
    assert elts[..i] == elts;
    MergeFinish(r, d, a, dflt);
    if !Truthy(r, "*") && dflt == 0 && Truthy(a, "*") {
      r := r["*" := a["*"]];
    }
  }

  /** After the loop every key holds its Entry; the last statement (lines 1380-1381) completes Merge. */
  lemma MergeFinish(r: Entries, d: Entries, a: Entries, dflt: int)
    requires forall k :: At(r, k) == if k in a && k != "*" then Entry(d, a, PassedDefault(d, dflt), k) else At(d, k)
    ensures (if !Truthy(r, "*") && dflt == 0 && Truthy(a, "*") then r["*" := a["*"]] else r) == Merge(d, a, dflt)
  {
    var r' := if !Truthy(r, "*") && dflt == 0 && Truthy(a, "*") then r["*" := a["*"]] else r;
    assert At(r, "*") == At(d, "*");
    forall k ensures At(r', k) == At(Merge(d, a, dflt), k) {
      MergeAt(d, a, dflt, k);
    }
    SameEntries(r', Merge(d, a, dflt));
  }

  /** One turn of the loop: the view r, which still holds d's entries at k and at `*`, takes the tree's entry k. */
  method MergeKey(r: Entries, d: Entries, a: Entries, ndfl: int, k: string) returns (r': Entries)
    requires k in a && k != "*" && At(r, k) == At(d, k) && At(r, "*") == At(d, "*")
    ensures forall x :: At(r', x) == if x == k then Entry(d, a, ndfl, k) else At(r, x)
    decreases Branch(a), 0
  {
    r' := r;
    var cur := At(r, k);
    var v := if cur.Some? then cur.value else Leaf(0);
    assert Truthy(r, "*") == Truthy(d, "*");
    if v != Leaf(0) {
      if v.Branch? {
        if a[k].Leaf? {
          if !Truthy(v.entries, "*") {
            r' := r[k := Branch(Assign(v.entries, "*", a[k]))];
          }
        } else {
          var sub := MergeMaps(v.entries, a[k].entries, ndfl);
          r' := r[k := Branch(sub)];
        }
      }
    } else if Truthy(r, "*") {
    } else if a[k].Branch? {
      var sub := MergeMaps(map[], a[k].entries, ndfl);
      r' := r[k := Branch(sub)];
    } else {
      r' := Assign(r, k, a[k]);
    }
  }
}
