/**
 * `grant_access` on one principal's tree: granting a level to a path
 * (lines 1161-1236) and revoking a path with NO_ACCESS (lines 1069-1126).
 * The daemon edits nested mappings in place through aliases; here every edit
 * is a new value, rebuilt along the path it reaches. `extra` is the number
 * of keys of the principal's root mapping that are not part of the tree
 * (its "?" group list), which the code counts with the rest.
 */
module AccessGrant {
  import opened Wrappers
  import opened AccessLevels
  import opened AccessTrees
  import opened StringOrder
  import opened AccessEvaluationProperties

  // ---------------------------------------------------------------------------
  // Paths into a tree

  /** The mapping reached from m along path, when every step is a branch. */
  function Sub(m: Entries, path: seq<string>): Option<Entries>
    decreases |path|
  {
    if |path| == 0 then Some(m)
    else
      match Get(m, path[0])
      case Branch(b) => Sub(b, path[1..])
      case Leaf(_) => None
  }

  /** m with the mapping at path replaced by n (what an assignment through the walked alias does). */
  function Put(m: Entries, path: seq<string>, n: Entries): (r: Entries)
    requires Sub(m, path).Some?
    ensures Sub(r, path) == Some(n)
    ensures forall i :: 0 <= i <= |path| ==> Sub(r, path[..i]).Some?
    decreases |path|
  {
    if |path| == 0 then n
    else
      var r := m[path[0] := Branch(Put(m[path[0]].entries, path[1..], n))];
      assert forall i :: 1 <= i <= |path| ==> path[..i][1..] == path[1..][..i - 1];
      r
  }

  /** Entries off the path survive a Put at every level above the replaced mapping. */
  lemma {:induction false} PutFrame(m: Entries, path: seq<string>, n: Entries, i: nat)
    requires Sub(m, path).Some? && i < |path|
    ensures Sub(m, path[..i]).Some?
    ensures Sub(Put(m, path, n), path[..i]).value - {path[i]} == Sub(m, path[..i]).value - {path[i]}
    decreases |path|
  {
    SubPrefix(m, path, i);
    var b := m[path[0]].entries;
    if i > 0 {
      assert path[..i][1..] == path[1..][..i - 1] && path[1..][i - 1] == path[i];
      PutFrame(b, path[1..], n, i - 1);
    }
  }

  lemma {:induction false} SubPrefix(m: Entries, path: seq<string>, i: nat)
    requires Sub(m, path).Some? && i <= |path|
    ensures Sub(m, path[..i]).Some?
    decreases |path|
  {
    if i > 0 {
      assert path[..i][1..] == path[1..][..i - 1];
      SubPrefix(m[path[0]].entries, path[1..], i - 1);
    }
  }

  /** The last step of a path that exists is a key of the mapping one level up. */
  lemma {:induction false} SubLast(m: Entries, path: seq<string>)
    requires Sub(m, path).Some? && |path| > 0
    ensures Sub(m, path[..|path| - 1]).Some?
    ensures path[|path| - 1] in Sub(m, path[..|path| - 1]).value
    ensures Sub(m, path[..|path| - 1]).value[path[|path| - 1]] == Branch(Sub(m, path).value)
    decreases |path|
  {
    if |path| > 1 {
      assert path[..|path| - 1][1..] == path[1..][..|path| - 2];
      SubLast(m[path[0]].entries, path[1..]);
    }
  }

  // ---------------------------------------------------------------------------
  // Granting a level

  /** What the final step leaves of the mapping that holds the last segment: a mapping, or a leaf for its parent. */
  datatype Final = Keep(m: Entries) | Collapse

  /**
   * The final step on the mapping m that holds the last segment (lines
   * 1185-1230). top says m is the root, which is never collapsed; extra is
   * the count of its non-tree keys.
   */
  function FinalGrant(m: Entries, last: string, t: int, extra: nat, top: bool): (r: Final)
    requires t != NoAccess
    ensures r.Collapse? ==> !top
  {
    if Get(m, "*") == Leaf(t) then
      var m1 := m - {last};
      var m2 := if |m1| + extra == 2 && "*" in m1 && Get(m1, "*") == Get(m1, ".") then m1 - {"."} else m1;
      if !top && |m2| == 1 then Collapse else Keep(m2)
    else if last == "*" then
      Keep((map k | k in m && m[k] != Leaf(t) :: m[k])["*" := Leaf(t)])
    else
      Keep(m[last := Leaf(t)])
  }

  /** The entry for a segment after the final step below it. */
  function Installed(f: Final, t: int): Node
  {
    match f
    case Keep(c) => Branch(c)
    case Collapse => Leaf(t)
  }

  /** A leaf met before the last segment becomes a branch that keeps its level for itself and below. */
  function SplitLeaf(v: int): Entries
  {
    if v != 0 then map["." := Leaf(v), "*" := Leaf(v)] else map[]
  }

  /** The walk below a split leaf: every further segment gets a fresh, empty mapping (lines 1171-1172). */
  function Fresh(base: Entries, ps: seq<string>, last: string, t: int): Final
    requires t != NoAccess
    decreases |ps|
  {
    if |ps| == 0 then FinalGrant(base, last, t, 0, false)
    else Keep(base[ps[0] := Installed(Fresh(map[], ps[1..], last, t), t)])
  }

  /** The walk of lines 1165-1178 over the segments ps before the last, then the final step. */
  function GrantIn(m: Entries, ps: seq<string>, last: string, t: int, extra: nat, top: bool): (r: Final)
    requires t != NoAccess
    ensures top ==> r.Keep?
    decreases |ps|
  {
    if |ps| == 0 then FinalGrant(m, last, t, if top then extra else 0, top)
    else
      var child :=
        match Get(m, ps[0])
        case Branch(b) => GrantIn(b, ps[1..], last, t, 0, false)
        case Leaf(v) => Fresh(SplitLeaf(v), ps[1..], last, t);
      Keep(m[ps[0] := Installed(child, t)])
  }

  /** The principal's tree after granting t (a level other than NO_ACCESS) to the path parts. */
  function GrantTree(root: Entries, parts: seq<string>, t: int, extra: nat): Entries
    requires |parts| > 0 && t != NoAccess
  {
    GrantIn(root, parts[..|parts| - 1], parts[|parts| - 1], t, extra, true).m
  }

  // ---------------------------------------------------------------------------
  // Revoking a path

  /** The result of a revoke: 0 when there is no such node, 1 when it was removed, 2 when the principal's map became empty. */
  datatype Revoke = Revoke(code: int, tree: Entries)

  /** The node the path names exists (lines 1072-1083). */
  predicate Present(root: Entries, parts: seq<string>)
  {
    |parts| > 0 && Sub(root, parts[..|parts| - 1]).Some? && parts[|parts| - 1] in Sub(root, parts[..|parts| - 1]).value
  }

  /** The branch that held the node, once the node is gone, qualifies for folding into its parent (line 1093). */
  predicate FoldApplies(p: Entries, sz: nat)
  {
    sz >= 2 && (|p| == 1 || |p| == 2) && ("*" in p || "." in p)
  }

  function Code(tree: Entries, extra: nat): int
  {
    if |tree| + extra == 0 then 2 else 1
  }

  /** The level the clean-up of an emptied branch works on (lines 1111-1115): two above the removed node. */
  function CleanupLevel(sz: nat): nat
  {
    if sz >= 2 then sz - 2 else 0
  }

  /** Lines 1111-1115: when the mapping last worked on is empty, delete entry parts[i] of the mapping at parts[..i]. */
  function Cleanup(t: Entries, parts: seq<string>, i: nat, emptied: bool): Entries
    requires i < |parts| && Sub(t, parts[..i]).Some?
  {
    if !emptied then t else Put(t, parts[..i], Sub(t, parts[..i]).value - {parts[i]})
  }

  /**
   * Revoke as the daemon does it. The fold looks up the first key of the
   * grandparent mapping in the branch (line 1104), and the clean-up of an
   * emptied branch deletes the entry two levels above the removed node (lines
   * 1111-1115), which is the right one only after a fold.
   */
  function RevokeAsWritten(root: Entries, parts: seq<string>, extra: nat): (r: Revoke)
    requires |parts| > 0
  {
    var sz := |parts| - 1;
    if !Present(root, parts) then Revoke(0, root)
    else
      var p := Sub(root, parts[..sz]).value - {parts[sz]};
      var r1 := Put(root, parts[..sz], p);
      var i := CleanupLevel(sz);
      assert parts[..sz][..i] == parts[..i];
      var after :=
        if FoldApplies(p, sz) then FoldAsWritten(r1, parts, p)
        else Cleanup(r1, parts, i, |p| + (if sz == 0 then extra else 0) == 0);
      Revoke(Code(after, extra), after)
  }

  /** Lines 1093-1115 as written, once the branch p at parts[..sz] qualifies for the fold. */
  function FoldAsWritten(r1: Entries, parts: seq<string>, p: Entries): Entries
    requires |parts| >= 3 && Sub(r1, parts[..|parts| - 1]) == Some(p)
  {
    var sz := |parts| - 1;
    var pre := parts[..sz];
    var p1 := p - {"."};
    var r2 := Put(r1, pre, p1);
    var qpath := parts[..sz - 1];
    assert pre[..sz - 1] == qpath && pre[..sz - 2] == parts[..sz - 2] && qpath[..sz - 2] == parts[..sz - 2];
    if |p1| != 1 then Cleanup(r2, parts, sz - 2, |p1| == 0)
    else
      SubLast(r2, pre);
      var q := Sub(r2, qpath).value;
      var k := if "*" in p1 then "*" else Least(q.Keys);
      var q' := if k in p1 then q[parts[sz - 1] := p1[k]] else q - {parts[sz - 1]};
      Cleanup(Put(r2, qpath, q'), parts, sz - 2, |q'| == 0)
  }

  /**
   * Revoke as evidently intended, where compaction changes the level of no
   * other path: the removed node's parent is folded into a leaf only when it
   * holds exactly an equal "." and "*" (the k = "*" case of line 1101, and
   * what SplitLeaf makes of a leaf), and an emptied parent is deleted from
   * its own parent.
   */
  function RevokePath(root: Entries, parts: seq<string>, extra: nat): (r: Revoke)
    requires |parts| > 0
  {
    var sz := |parts| - 1;
    if !Present(root, parts) then Revoke(0, root)
    else
      var p := Sub(root, parts[..sz]).value - {parts[sz]};
      var r1 := Put(root, parts[..sz], p);
      var after := if sz == 0 then r1 else Compact(r1, parts);
      Revoke(Code(after, extra), after)
  }

  /** A branch holding only "." and "*", equal and nonzero: it reads as that one level throughout. */
  predicate EqualPair(p: Entries)
  {
    p.Keys == {".", "*"} && p["."] == p["*"] && p["*"].Leaf? && p["*"].level != 0
  }

  /** The intended compaction of the removed node's parent, parts[..|parts| - 1], in t. */
  function Compact(t: Entries, parts: seq<string>): Entries
    requires |parts| >= 2 && Sub(t, parts[..|parts| - 1]).Some?
  {
    var sz := |parts| - 1;
    var b := parts[sz - 1];
    var p := Sub(t, parts[..sz]).value;
    SubLast(t, parts[..sz]);
    assert parts[..sz][..sz - 1] == parts[..sz - 1];
    if sz >= 2 && b != "." && b != "*" && EqualPair(p) then
      Put(t, parts[..sz - 1], Sub(t, parts[..sz - 1]).value[b := p["*"]])
    else Cleanup(t, parts, sz - 1, |p| == 0)
  }
}
