/**
 * Properties of granting and revoking: a granted level is what the tree
 * then gives the path; paths that leave the root by another entry are not
 * affected; splitting a leaf keeps every level; granting `*` purges the
 * equal leaves beside it; revoke reports 0, 1 or 2 as documented; and the two
 * defects of the daemon's revoke, shown on concrete trees next to the
 * corrected definition's properties.
 */
module AccessGrantProperties {
  import opened Wrappers
  import opened AccessLevels
  import opened AccessTrees
  import opened StringOrder
  import opened AccessEvaluationProperties
  import opened AccessGrant

  // ---------------------------------------------------------------------------
  // Granting

  lemma {:induction false} FinalLevel(m: Entries, last: string, t: int, extra: nat, top: bool, d: int)
    requires t != NoAccess && last != "*"
    ensures FinalGrant(m, last, t, extra, top).Keep? ==> TreeLevel(FinalGrant(m, last, t, extra, top).m, [last], d) == t
  {
    var r := FinalGrant(m, last, t, extra, top);
    if r.Keep? {
      assert [last][0] == last;
      if Get(m, "*") == Leaf(t) {
        assert last !in r.m && Get(r.m, "*") == Leaf(t);
      }
    }
  }

  lemma {:induction false} FreshLevel(base: Entries, ps: seq<string>, last: string, t: int, d: int)
    requires t != NoAccess && last != "*"
    ensures Fresh(base, ps, last, t).Keep? ==> TreeLevel(Fresh(base, ps, last, t).m, ps + [last], d) == t
    decreases |ps|
  {
    if |ps| == 0 {
      assert ps + [last] == [last];
      FinalLevel(base, last, t, 0, false, d);
    } else {
      var child := Fresh(map[], ps[1..], last, t);
      var m' := base[ps[0] := Installed(child, t)];
      assert (ps + [last])[0] == ps[0] && (ps + [last])[1..] == ps[1..] + [last];
      if child.Keep? {
        FreshLevel(map[], ps[1..], last, t, BranchLevel(child.m, d, false));
      }
    }
  }

  lemma {:induction false} GrantInLevel(m: Entries, ps: seq<string>, last: string, t: int, extra: nat, top: bool, d: int)
    requires t != NoAccess && last != "*"
    ensures GrantIn(m, ps, last, t, extra, top).Keep? ==> TreeLevel(GrantIn(m, ps, last, t, extra, top).m, ps + [last], d) == t
    decreases |ps|
  {
    if |ps| == 0 {
      assert ps + [last] == [last];
      FinalLevel(m, last, t, if top then extra else 0, top, d);
    } else {
      var child :=
        match Get(m, ps[0])
        case Branch(b) => GrantIn(b, ps[1..], last, t, 0, false)
        case Leaf(v) => Fresh(SplitLeaf(v), ps[1..], last, t);
      assert (ps + [last])[0] == ps[0] && (ps + [last])[1..] == ps[1..] + [last];
      if child.Keep? {
        var d' := BranchLevel(child.m, d, false);
        match Get(m, ps[0])
        case Branch(b) => GrantInLevel(b, ps[1..], last, t, 0, false, d');
        case Leaf(v) => FreshLevel(SplitLeaf(v), ps[1..], last, t, d');
      }
    }
  }

  /** After granting t to a path (other than a `*` entry), the principal's own tree gives the path exactly t. */
  lemma GrantedLevel(root: Entries, parts: seq<string>, t: int, extra: nat)
    requires |parts| > 0 && t != NoAccess && parts[|parts| - 1] != "*"
    ensures OwnLevel(GrantTree(root, parts, t, extra), parts) == t
  {
    var n := |parts| - 1;
    GrantInLevel(root, parts[..n], parts[n], t, extra, true, Star(GrantTree(root, parts, t, extra)));
    assert parts[..n] + [parts[n]] == parts;
  }

  /** No walked segment is "." or "*", and the granted one is not "*". */
  predicate PlainPath(ps: seq<string>, last: string)
  {
    last != "*" && forall i :: 0 <= i < |ps| ==> ps[i] != "." && ps[i] != "*"
  }

  /** q leaves the path ps + [last] below the mapping at ps, or above it: it neither names that mapping nor extends the granted path. */
  predicate Beside(q: seq<string>, ps: seq<string>, last: string)
  {
    q != ps && !(|ps| < |q| && q[..|ps| + 1] == ps + [last])
  }

  /** The final step keeps the level of every sibling of the granted node; a collapsed mapping read them all as t. */
  lemma FinalFrame(m: Entries, last: string, t: int, extra: nat, top: bool, q: seq<string>, d: int)
    requires t != NoAccess && last != "*" && |q| > 0 && q[0] != last
    ensures var r := FinalGrant(m, last, t, extra, top);
      && (r.Keep? ==> Star(r.m) == Star(m) && TreeLevel(r.m, q, d) == TreeLevel(m, q, d))
      && (r.Collapse? ==> TreeLevel(m, q, d) == t)
  {
    var r := FinalGrant(m, last, t, extra, top);
    if Get(m, "*") == Leaf(t) {
      var m1 := m - {last};
      var m2 := if |m1| + extra == 2 && "*" in m1 && Get(m1, "*") == Get(m1, ".") then m1 - {"."} else m1;
      assert Get(m1, q[0]) == Get(m, q[0]) && Star(m1) == t && "*" in m2;
      if r.Collapse? {
        OneKey(m2, "*");
        if q[0] in m1 && q[0] != "*" {
          assert q[0] !in m2 && m2 != m1 && q[0] == ".";
          assert Get(m1, ".") == Get(m1, "*");
        }
      }
    } else {
      assert Get(r.m, q[0]) == Get(m, q[0]);
    }
  }

  /** A mapping with one key holds nothing else. */
  lemma OneKey(m: Entries, k: string)
    requires |m| == 1 && k in m
    ensures m.Keys == {k}
  {
    var others := m.Keys - {k};
    assert |m.Keys| == 1 && |others| == 0;
  }

  /**
   * Below a leaf of level v split by the walk (or below a fresh mapping,
   * v = 0), every path beside the granted one reads as the leaf did.
   */
  lemma {:induction false} FreshFrame(v: int, ps: seq<string>, last: string, t: int, q: seq<string>, u: int)
    requires t != NoAccess && PlainPath(ps, last) && |q| > 0 && Beside(q, ps, last)
    requires v == 0 || u == v
    ensures var r := Fresh(SplitLeaf(v), ps, last, t);
      r.Keep? ==> TreeLevel(r.m, q, u) == u
    decreases |ps|
  {
    var base := SplitLeaf(v);
    var r := Fresh(base, ps, last, t);
    if |ps| == 0 {
      FreshFinalFrame(v, last, t, q, u);
    } else if q[0] != ps[0] {
      assert ps[0] != "*";
      assert Get(r.m, q[0]) == Get(base, q[0]);
    } else {
      var e: Entries := map[];
      assert SplitLeaf(0) == e;
      var q' := q[1..];
      FreshBelow(ps, last, t, q');
      if |q'| > 0 {
        if |ps| < |q| {
          assert q[..|ps| + 1] == [q[0]] + q'[..|ps|];
        }
        assert ps + [last] == [ps[0]] + (ps[1..] + [last]);
        assert Beside(q', ps[1..], last);
        FreshFrame(0, ps[1..], last, t, q', u);
      } else {
        assert |ps| > 1;
      }
    }
  }

  /** The final step below a split leaf: the siblings of the granted node read as the leaf did. */
  lemma FreshFinalFrame(v: int, last: string, t: int, q: seq<string>, u: int)
    requires t != NoAccess && last != "*" && |q| > 0 && q[0] != last
    requires v == 0 || u == v
    ensures var r := FinalGrant(SplitLeaf(v), last, t, 0, false);
      r.Keep? ==> TreeLevel(r.m, q, u) == u
  {
    var base := SplitLeaf(v);
    var r := FinalGrant(base, last, t, 0, false);
    if r.Keep? {
      if Get(base, "*") == Leaf(t) {
        assert false;
      } else {
        assert Get(r.m, q[0]) == Get(base, q[0]);
      }
    }
  }

  /** The fresh mapping the walk makes below a split leaf never collapses, has no `.` or `*`, and passes the inherited level on. */
  lemma FreshBelow(ps: seq<string>, last: string, t: int, q': seq<string>)
    requires t != NoAccess && PlainPath(ps, last) && |ps| > 0
    requires |q'| == 0 ==> |ps| > 1
    ensures var c := Fresh(map[], ps[1..], last, t);
      && c.Keep? && Star(c.m) == 0 && (|q'| == 0 ==> Dot(c.m) == 0)
      && PlainPath(ps[1..], last)
  {
    assert PlainPath(ps[1..], last) by {
      forall i | 0 <= i < |ps[1..]| ensures ps[1..][i] != "." && ps[1..][i] != "*" {
        assert ps[1..][i] == ps[i + 1];
      }
    }
    if |ps| > 1 {
      assert ps[1] != "*" && ps[1] != ".";
    }
  }

  /**
   * The walk and the final step keep the level of every path beside the
   * granted one, given the inherited level d that m tracks.
   */
  lemma {:induction false} GrantInFrame(m: Entries, ps: seq<string>, last: string, t: int, extra: nat, top: bool, q: seq<string>, d: int)
    requires t != NoAccess && PlainPath(ps, last) && Beside(q, ps, last) && Tracks(m, d)
    ensures var r := GrantIn(m, ps, last, t, extra, top);
      r.Keep? ==> && Star(r.m) == Star(m) && (|ps| > 0 ==> Dot(r.m) == Dot(m))
                  && TreeLevel(r.m, q, d) == TreeLevel(m, q, d)
    decreases |ps|
  {
    var r := GrantIn(m, ps, last, t, extra, top);
    if |ps| == 0 {
      assert |q| > 0 && q[..1] == [q[0]];
      FinalFrame(m, last, t, if top then extra else 0, top, q, d);
    } else {
      assert PlainPath(ps[1..], last) by {
        forall i | 0 <= i < |ps[1..]| ensures ps[1..][i] != "." && ps[1..][i] != "*" {
          assert ps[1..][i] == ps[i + 1];
        }
      }
      assert ps[0] != "*" && ps[0] != ".";
      if |q| > 0 && q[0] == ps[0] {
        var q' := q[1..];
        BesideTail(q, ps, last);
        match Get(m, ps[0])
        case Branch(b) =>
          var child := GrantIn(b, ps[1..], last, t, 0, false);
          TracksStep(b, d);
          if child.Keep? {
            GrantInFrame(b, ps[1..], last, t, 0, false, q', Star(b));
            if |q'| > 0 {
              GrantInFrame(b, ps[1..], last, t, 0, false, q', BranchLevel(b, d, false));
            } else {
              assert |ps| > 1;
            }
          } else {
            assert |ps| == 1 && |q'| > 0 && q'[0] != last;
            FinalFrame(b, last, t, 0, false, q', BranchLevel(b, d, |q| == 1));
          }
        case Leaf(v) =>
          LeafFrame(m, ps, last, t, q, d, v);
      } else if |q| > 0 {
        assert Get(r.m, q[0]) == Get(m, q[0]);
      }
    }
  }

  /** GrantInFrame where the walk goes through the leaf v at ps[0], which q also goes through. */
  lemma LeafFrame(m: Entries, ps: seq<string>, last: string, t: int, q: seq<string>, d: int, v: int)
    requires t != NoAccess && |ps| > 0 && PlainPath(ps[1..], last) && ps[0] != "*" && ps[0] != "."
    requires |q| > 0 && q[0] == ps[0] && Beside(q[1..], ps[1..], last) && Tracks(m, d) && Get(m, ps[0]) == Leaf(v)
    ensures var child := Fresh(SplitLeaf(v), ps[1..], last, t);
      TreeLevel(m[ps[0] := Installed(child, t)], q, d) == TreeLevel(m, q, d)
  {
    var q' := q[1..];
    var u := if v != 0 then v else d;
    var child := Fresh(SplitLeaf(v), ps[1..], last, t);
    if child.Keep? {
      var c := child.m;
      if |q'| == 0 {
        assert |ps| > 1 && Dot(c) == Dot(SplitLeaf(v));
        FreshStar(v, ps[1..], last, t);
      } else {
        FreshStar(v, ps[1..], last, t);
        assert BranchLevel(c, d, false) == u;
        FreshFrame(v, ps[1..], last, t, q', u);
      }
    } else {
      FreshCollapse(v, ps[1..], last, t);
    }
  }

  /** Beside one step down: a path beside ps that shares its first segment is beside the rest of ps. */
  lemma BesideTail(q: seq<string>, ps: seq<string>, last: string)
    requires |q| > 0 && |ps| > 0 && q[0] == ps[0] && Beside(q, ps, last)
    ensures Beside(q[1..], ps[1..], last)
  {
    assert q == [q[0]] + q[1..] && ps == [ps[0]] + ps[1..];
    if |ps| < |q| {
      assert q[..|ps| + 1] == [q[0]] + q[1..][..|ps|];
      assert ps + [last] == [ps[0]] + (ps[1..] + [last]);
    }
  }

  /** A split leaf's mapping keeps its `*` (and its `.`, when the walk goes on below it). */
  lemma FreshStar(v: int, ps: seq<string>, last: string, t: int)
    requires t != NoAccess && PlainPath(ps, last)
    ensures var r := Fresh(SplitLeaf(v), ps, last, t);
      r.Keep? ==> Star(r.m) == v && (|ps| > 0 ==> Dot(r.m) == v)
  {
    if |ps| > 0 {
      assert ps[0] != "*" && ps[0] != ".";
    }
  }

  /** Only a split leaf of level t collapses back, into the same leaf. */
  lemma FreshCollapse(v: int, ps: seq<string>, last: string, t: int)
    requires t != NoAccess && PlainPath(ps, last)
    ensures Fresh(SplitLeaf(v), ps, last, t).Collapse? ==> v == t
  {
  }

  /**
   * A grant (of a named entry, along a path of named entries) leaves every
   * path as it was except the granted path, the paths below it, and the
   * path of the mapping that holds it.
   */
  lemma GrantFrame(root: Entries, parts: seq<string>, t: int, extra: nat, q: seq<string>)
    requires |parts| > 0 && t != NoAccess && PlainPath(parts[..|parts| - 1], parts[|parts| - 1])
    requires !(|parts| <= |q| && q[..|parts|] == parts) && q != parts[..|parts| - 1]
    ensures OwnLevel(GrantTree(root, parts, t, extra), q) == OwnLevel(root, q)
  {
    var n := |parts| - 1;
    assert parts[..n] + [parts[n]] == parts;
    GrantInFrame(root, parts[..n], parts[n], t, extra, true, q, Star(root));
  }

  /** A leaf split by the walk keeps the level of every path through it. */
  lemma LeafSplitKeepsLevels(m: Entries, p: string, rest: seq<string>, d: int)
    requires LevelAt(m, p) != 0
    ensures TreeLevel(m[p := Branch(SplitLeaf(m[p].level))], [p] + rest, d) == TreeLevel(m, [p] + rest, d)
  {
    var v := m[p].level;
    var b := SplitLeaf(v);
    var parts := [p] + rest;
    assert parts[0] == p && parts[1..] == rest;
    LeafCoversSubtree(m, p, rest, d);
    if |rest| > 0 {
      assert Get(b, rest[0]) == Leaf(v) || rest[0] !in b;
    }
  }

  /** Granting `*` sets it and purges the leaves beside it that hold the same level; every other entry stays. */
  lemma StarGrantPurges(m: Entries, t: int, extra: nat, top: bool)
    requires t != NoAccess && Get(m, "*") != Leaf(t)
    ensures var r := FinalGrant(m, "*", t, extra, top);
      && r.Keep? && r.m["*"] == Leaf(t)
      && (forall k :: k in r.m && k != "*" ==> k in m && r.m[k] == m[k] && m[k] != Leaf(t))
      && (forall k :: k in m && k != "*" && m[k] != Leaf(t) ==> k in r.m)
  {
  }

  /** A node granted the level its mapping's `*` already gives is removed, and the `*` rules in its place. */
  lemma EqualToStarRemoved(m: Entries, last: string, t: int, extra: nat, top: bool)
    requires t != NoAccess && last != "*" && Get(m, "*") == Leaf(t)
    ensures var r := FinalGrant(m, last, t, extra, top);
      r.Collapse? || (last !in r.m && r.m["*"] == Leaf(t) && forall k :: k in r.m ==> k in m && r.m[k] == m[k])
  {
  }

  lemma FinalCanonical(m: Entries, last: string, t: int, extra: nat, top: bool)
    requires t != NoAccess && Canonical(m)
    ensures FinalGrant(m, last, t, extra, top).Keep? ==> Canonical(FinalGrant(m, last, t, extra, top).m)
  {
    var r := FinalGrant(m, last, t, extra, top);
    if r.Keep? {
      forall k | k in r.m
        ensures CanonicalNode(r.m[k])
      {
        assert r.m[k] == Leaf(t) || (k in m && r.m[k] == m[k]);
      }
    }
  }

  /** Installing a canonical result (or a collapsed leaf) into a canonical mapping keeps it canonical. */
  lemma InstallCanonical(m: Entries, k: string, f: Final, t: int)
    requires t != NoAccess && Canonical(m) && (f.Keep? ==> Canonical(f.m))
    ensures Canonical(m[k := Installed(f, t)])
  {
    var n := Installed(f, t);
    assert CanonicalNode(n);
    var m' := m[k := n];
    forall k' | k' in m'
      ensures CanonicalNode(m'[k'])
    {
      if k' != k {
        assert m'[k'] == m[k'];
      }
    }
  }

  lemma {:induction false} FreshCanonical(base: Entries, ps: seq<string>, last: string, t: int)
    requires t != NoAccess && Canonical(base)
    ensures Fresh(base, ps, last, t).Keep? ==> Canonical(Fresh(base, ps, last, t).m)
    decreases |ps|
  {
    if |ps| == 0 {
      FinalCanonical(base, last, t, 0, false);
    } else {
      var empty: Entries := map[];
      FreshCanonical(empty, ps[1..], last, t);
      InstallCanonical(base, ps[0], Fresh(empty, ps[1..], last, t), t);
    }
  }

  lemma {:induction false} GrantInCanonical(m: Entries, ps: seq<string>, last: string, t: int, extra: nat, top: bool)
    requires t != NoAccess && Canonical(m)
    ensures GrantIn(m, ps, last, t, extra, top).Keep? ==> Canonical(GrantIn(m, ps, last, t, extra, top).m)
    decreases |ps|
  {
    if |ps| == 0 {
      FinalCanonical(m, last, t, if top then extra else 0, top);
    } else {
      match Get(m, ps[0])
      case Branch(b) =>
        assert CanonicalNode(m[ps[0]]);
        GrantInCanonical(b, ps[1..], last, t, 0, false);
        InstallCanonical(m, ps[0], GrantIn(b, ps[1..], last, t, 0, false), t);
      case Leaf(v) =>
        FreshCanonical(SplitLeaf(v), ps[1..], last, t);
        InstallCanonical(m, ps[0], Fresh(SplitLeaf(v), ps[1..], last, t), t);
    }
  }

  /** Granting never stores a 0, so a tree the daemon can hold stays one. */
  lemma GrantCanonical(root: Entries, parts: seq<string>, t: int, extra: nat)
    requires |parts| > 0 && t != NoAccess && Canonical(root)
    ensures Canonical(GrantTree(root, parts, t, extra))
  {
    GrantInCanonical(root, parts[..|parts| - 1], parts[|parts| - 1], t, extra, true);
  }

  // ---------------------------------------------------------------------------
  // Revoking: the return codes

  /** The daemon's revoke returns 0 exactly when the node is absent, changing nothing, and 2 exactly when the map is left empty. */
  lemma RevokeCodes(root: Entries, parts: seq<string>, extra: nat)
    requires |parts| > 0
    ensures var r := RevokeAsWritten(root, parts, extra);
      && (r.code == 0 <==> !Present(root, parts))
      && (r.code == 0 ==> r.tree == root)
      && (r.code == 2 <==> Present(root, parts) && |r.tree| + extra == 0)
      && (r.code == 1 <==> Present(root, parts) && |r.tree| + extra > 0)
  {
  }

  lemma RevokePathCodes(root: Entries, parts: seq<string>, extra: nat)
    requires |parts| > 0
    ensures var r := RevokePath(root, parts, extra);
      && (r.code == 0 <==> !Present(root, parts))
      && (r.code == 0 ==> r.tree == root)
      && (r.code == 2 <==> Present(root, parts) && |r.tree| + extra == 0)
      && (r.code == 1 <==> Present(root, parts) && |r.tree| + extra > 0)
  {
  }

  // ---------------------------------------------------------------------------
  // Revoking: what the corrected definition keeps

  /** Above level n of the path, after differs from before only in the entries on the path. */
  predicate OffPathKept(before: Entries, after: Entries, parts: seq<string>, n: nat)
    requires n <= |parts|
  {
    forall i :: 0 <= i < n && Sub(before, parts[..i]).Some? ==>
      && Sub(after, parts[..i]).Some?
      && Sub(after, parts[..i]).value - {parts[i]} == Sub(before, parts[..i]).value - {parts[i]}
  }

  lemma PutKeeps(m: Entries, parts: seq<string>, l: nat, n: Entries, k: nat)
    requires k <= l <= |parts| && Sub(m, parts[..l]).Some?
    ensures OffPathKept(m, Put(m, parts[..l], n), parts, k)
  {
    forall i | 0 <= i < k && Sub(m, parts[..i]).Some?
      ensures Sub(Put(m, parts[..l], n), parts[..i]).Some?
      ensures Sub(Put(m, parts[..l], n), parts[..i]).value - {parts[i]} == Sub(m, parts[..i]).value - {parts[i]}
    {
      assert parts[..l][..i] == parts[..i] && parts[..l][i] == parts[i];
      PutFrame(m, parts[..l], n, i);
    }
  }

  lemma PutAtKeeps(m: Entries, parts: seq<string>, l: nat, n: Entries)
    requires l < |parts| && Sub(m, parts[..l]).Some?
    requires n - {parts[l]} == Sub(m, parts[..l]).value - {parts[l]}
    ensures OffPathKept(m, Put(m, parts[..l], n), parts, l + 1)
  {
    PutKeeps(m, parts, l, n, l);
  }

  lemma KeptTrans(a: Entries, b: Entries, c: Entries, parts: seq<string>, n: nat)
    requires n <= |parts| && OffPathKept(a, b, parts, n) && OffPathKept(b, c, parts, n)
    ensures OffPathKept(a, c, parts, n)
  {
  }

  /** Revoking a node keeps every entry beside the path, at every level above the node. */
  lemma RevokeKeepsSiblings(root: Entries, parts: seq<string>, extra: nat)
    requires |parts| > 0
    ensures OffPathKept(root, RevokePath(root, parts, extra).tree, parts, |parts| - 1)
  {
    var sz := |parts| - 1;
    if Present(root, parts) {
      if sz == 0 {
        var p := Sub(root, []).value - {parts[0]};
        assert parts[..0] == [];
        PutKeeps(root, parts, 0, p, 0);
      } else {
        var p, r1 := RevokePathUnfold(root, parts, extra);
        PutKeeps(root, parts, sz, p, sz);
        CompactKeeps(r1, parts);
        KeptTrans(root, r1, Compact(r1, parts), parts, sz);
      }
    }
  }

  /** The corrected clean-up deletes an entry of the node's parent, the last mapping on the path. */
  lemma CleanupKeeps(t: Entries, parts: seq<string>, emptied: bool)
    requires |parts| >= 2 && Sub(t, parts[..|parts| - 1]).Some?
    ensures Sub(t, parts[..|parts| - 2]).Some?
    ensures OffPathKept(t, Cleanup(t, parts, |parts| - 2, emptied), parts, |parts| - 1)
  {
    var sz := |parts| - 1;
    assert parts[..sz][..sz - 1] == parts[..sz - 1];
    SubPrefix(t, parts[..sz], sz - 1);
    if emptied {
      PutAtKeeps(t, parts, sz - 1, Sub(t, parts[..sz - 1]).value - {parts[sz - 1]});
    }
  }

  /** Compaction rewrites only the entry that holds the node's parent. */
  lemma CompactKeeps(t: Entries, parts: seq<string>)
    requires |parts| >= 2 && Sub(t, parts[..|parts| - 1]).Some?
    ensures OffPathKept(t, Compact(t, parts), parts, |parts| - 1)
  {
    var sz := |parts| - 1;
    var p := Sub(t, parts[..sz]).value;
    assert parts[..sz][..sz - 1] == parts[..sz - 1];
    SubPrefix(t, parts[..sz], sz - 1);
    CleanupKeeps(t, parts, |p| == 0);
    if sz >= 2 && parts[sz - 1] != "." && parts[sz - 1] != "*" && EqualPair(p) {
      PutAtKeeps(t, parts, sz - 1, Sub(t, parts[..sz - 1]).value[parts[sz - 1] := p["*"]]);
    }
  }

  // ---------------------------------------------------------------------------
  // Revoking: what the corrected definition does to levels

  /**
   * The inherited level d agrees with m's `*` whenever that is set: true of
   * the root (whose `*` is the starting level) and of every mapping a
   * descent moves into before the last segment.
   */
  predicate Tracks(m: Entries, d: int)
  {
    Star(m) == 0 || d == Star(m)
  }

  /** Moving into a branch before the last segment keeps Tracks. */
  lemma TracksStep(b: Entries, d: int)
    ensures Tracks(b, BranchLevel(b, d, false))
  {
  }

  /** Reading the empty branch b gives what its absence gives. */
  lemma EmptyBranchGone(m: Entries, b: string, q: seq<string>, d: int)
    requires b in m && m[b] == Branch(map[]) && Tracks(m, d)
    ensures TreeLevel(m - {b}, q, d) == TreeLevel(m, q, d)
  {
    var e: Entries := map[];
    assert Star(m - {b}) == Star(m) && Star(e) == 0 && Dot(e) == 0;
    if |q| > 0 && q[0] == b {
      assert BranchLevel(e, d, |q| == 1) == d;
      if |q| > 1 {
        assert Get(e, q[1..][0]) == Leaf(0);
      }
    } else if |q| > 0 {
      assert Get(m - {b}, q[0]) == Get(m, q[0]);
    }
  }

  /** A branch holding an equal "." and "*" reads as the leaf of that level. */
  lemma PairFolds(m: Entries, b: string, q: seq<string>, d: int)
    requires b in m && m[b].Branch? && EqualPair(m[b].entries) && b != "." && b != "*"
    ensures TreeLevel(m[b := m[b].entries["*"]], q, d) == TreeLevel(m, q, d)
  {
    var p := m[b].entries;
    var v := p["*"].level;
    var m' := m[b := p["*"]];
    assert Star(m') == Star(m);
    if |q| > 0 && q[0] == b {
      assert Star(p) == v && Dot(p) == v && BranchLevel(p, d, |q| == 1) == v;
      if |q| > 1 {
        assert Get(p, q[1..][0]) == Leaf(0) || Get(p, q[1..][0]) == Leaf(v);
      }
    } else if |q| > 0 {
      assert Get(m', q[0]) == Get(m, q[0]);
    }
  }

  /** n' may stand for n: same `.` and `*`, and the same level for every path read with an inherited level n tracks. */
  ghost predicate Alike(n: Entries, n': Entries)
  {
    && Star(n') == Star(n) && Dot(n') == Dot(n)
    && forall q: seq<string>, d: int :: Tracks(n, d) ==> TreeLevel(n', q, d) == TreeLevel(n, q, d)
  }

  /** Putting a mapping that may stand for the old one changes no level. */
  lemma {:induction false} PutAlike(t: Entries, g: seq<string>, n': Entries, q: seq<string>, d: int)
    requires Sub(t, g).Some? && Alike(Sub(t, g).value, n') && Tracks(t, d)
    ensures Star(Put(t, g, n')) == Star(t) && Dot(Put(t, g, n')) == Dot(t)
    ensures TreeLevel(Put(t, g, n'), q, d) == TreeLevel(t, q, d)
    decreases |g|
  {
    if |g| > 0 {
      var b := t[g[0]].entries;
      var t' := Put(t, g, n');
      var b' := Put(b, g[1..], n');
      assert t' == t[g[0] := Branch(b')];
      PutAlike(b, g[1..], n', [], Star(b));
      if |q| > 0 && q[0] == g[0] && |q| > 1 {
        TracksStep(b, d);
        PutAlike(b, g[1..], n', q[1..], BranchLevel(b, d, false));
      } else if |q| > 0 && q[0] != g[0] {
        assert Get(t', q[0]) == Get(t, q[0]);
      }
    }
  }

  /** Compaction changes the level of no path. */
  lemma CompactLevels(t: Entries, parts: seq<string>, q: seq<string>)
    requires |parts| >= 2 && Sub(t, parts[..|parts| - 1]).Some?
    ensures OwnLevel(Compact(t, parts), q) == OwnLevel(t, q)
  {
    var sz := |parts| - 1;
    var b := parts[sz - 1];
    var p := Sub(t, parts[..sz]).value;
    SubLast(t, parts[..sz]);
    assert parts[..sz][..sz - 1] == parts[..sz - 1];
    var up := Sub(t, parts[..sz - 1]).value;
    assert b in up && up[b] == Branch(p);
    if sz >= 2 && b != "." && b != "*" && EqualPair(p) {
      var n' := up[b := p["*"]];
      forall q': seq<string>, d: int | Tracks(up, d)
        ensures TreeLevel(n', q', d) == TreeLevel(up, q', d)
      {
        PairFolds(up, b, q', d);
      }
      PairFolds(up, b, [], 0);
      PutAlike(t, parts[..sz - 1], n', q, Star(t));
    } else if |p| == 0 {
      var n' := up - {b};
      assert p == map[];
      forall q': seq<string>, d: int | Tracks(up, d)
        ensures TreeLevel(n', q', d) == TreeLevel(up, q', d)
      {
        EmptyBranchGone(up, b, q', d);
      }
      assert Star(n') == Star(up) && Dot(n') == Dot(up);
      PutAlike(t, parts[..sz - 1], n', q, Star(t));
    }
  }

  /** Removing the entry last (not "." or "*") below pre changes no level outside its subtree, nor the defaults of t. */
  lemma {:induction false} RemoveKeeps(t: Entries, pre: seq<string>, last: string, q: seq<string>, d: int)
    requires Sub(t, pre).Some? && last != "." && last != "*"
    requires !(|pre| < |q| && q[..|pre| + 1] == pre + [last])
    ensures Star(Put(t, pre, Sub(t, pre).value - {last})) == Star(t)
    ensures Dot(Put(t, pre, Sub(t, pre).value - {last})) == Dot(t)
    ensures TreeLevel(Put(t, pre, Sub(t, pre).value - {last}), q, d) == TreeLevel(t, q, d)
    decreases |pre|
  {
    var t' := Put(t, pre, Sub(t, pre).value - {last});
    if |pre| == 0 {
      assert t' == t - {last};
      if |q| > 0 {
        assert q[..1] == [q[0]];
        assert Get(t', q[0]) == Get(t, q[0]);
      }
    } else {
      var b := t[pre[0]].entries;
      var b' := Put(b, pre[1..], Sub(b, pre[1..]).value - {last});
      assert t' == t[pre[0] := Branch(b')];
      if |q| > 0 && q[0] == pre[0] {
        if |pre| < |q| {
          assert q[..|pre| + 1] == [q[0]] + q[1..][..|pre|];
          assert pre + [last] == [pre[0]] + (pre[1..] + [last]);
        }
        RemoveKeeps(b, pre[1..], last, q[1..], BranchLevel(b, d, |q| == 1));
      } else {
        RemoveKeeps(b, pre[1..], last, [], 0);
        if |q| > 0 {
          assert Get(t', q[0]) == Get(t, q[0]);
        }
      }
    }
  }

  /** Below the mapping at pre, a segment it does not hold reads like any other it does not hold, whatever follows. */
  lemma {:induction false} UnnamedAlike(m: Entries, pre: seq<string>, x: string, y: string, rest: seq<string>, d: int)
    requires Sub(m, pre).Some? && x !in Sub(m, pre).value && y !in Sub(m, pre).value
    ensures TreeLevel(m, pre + [x] + rest, d) == TreeLevel(m, pre + [y], d)
    decreases |pre|
  {
    if |pre| == 0 {
      assert (pre + [x] + rest)[0] == x && (pre + [y])[0] == y;
    } else {
      assert (pre + [x] + rest)[0] == pre[0] && (pre + [y])[0] == pre[0];
      assert (pre + [x] + rest)[1..] == pre[1..] + [x] + rest;
      assert (pre + [y])[1..] == pre[1..] + [y];
      UnnamedAlike(m[pre[0]].entries, pre[1..], x, y, rest, BranchLevel(m[pre[0]].entries, d, false));
    }
  }

  /**
   * The corrected revoke of a named entry changes the level of no path
   * outside the revoked subtree (compaction is invisible to `_get_access`).
   */
  lemma RevokeKeepsLevels(root: Entries, parts: seq<string>, extra: nat, q: seq<string>)
    requires |parts| > 0 && parts[|parts| - 1] != "." && parts[|parts| - 1] != "*"
    requires !(|parts| <= |q| && q[..|parts|] == parts)
    ensures OwnLevel(RevokePath(root, parts, extra).tree, q) == OwnLevel(root, q)
  {
    var sz := |parts| - 1;
    if Present(root, parts) {
      assert parts == parts[..sz] + [parts[sz]];
      var p := Sub(root, parts[..sz]).value - {parts[sz]};
      var r1 := Put(root, parts[..sz], p);
      RemoveKeeps(root, parts[..sz], parts[sz], q, Star(root));
      if sz > 0 {
        CompactLevels(r1, parts, q);
      }
    }
  }

  /**
   * After the corrected revoke, the revoked path and everything below it
   * read as an unnamed sibling of the revoked entry read before: the level
   * falls back to the parent's `*`, else to what is inherited.
   */
  lemma RevokeFallsBack(root: Entries, parts: seq<string>, extra: nat, k: string, rest: seq<string>)
    requires |parts| > 0 && Present(root, parts) && parts[|parts| - 1] != "." && parts[|parts| - 1] != "*"
    requires k !in Sub(root, parts[..|parts| - 1]).value
    ensures OwnLevel(RevokePath(root, parts, extra).tree, parts + rest) == OwnLevel(root, parts[..|parts| - 1] + [k])
  {
    var sz := |parts| - 1;
    var pre := parts[..sz];
    assert parts == pre + [parts[sz]];
    var p := Sub(root, pre).value - {parts[sz]};
    var r1 := Put(root, pre, p);
    if sz > 0 {
      CompactLevels(r1, parts, parts + rest);
    }
    UnnamedAlike(r1, pre, parts[sz], k, rest, Star(r1));
    var q := pre + [k];
    assert k != parts[sz];
    assert q[..|pre| + 1] == q && q[sz] == k && (pre + [parts[sz]])[sz] == parts[sz];
    RemoveKeeps(root, pre, parts[sz], q, Star(root));
  }

  // ---------------------------------------------------------------------------
  // The two defects of the daemon's revoke

  /** "a" holds "b", whose "." and "x" stay once "y" is revoked. */
  function FoldTree(): Entries
  {
    map["a" := Branch(map["b" := Branch(map["." := Leaf(Read), "x" := Leaf(Write), "y" := Leaf(GrantRead)])])]
  }

  /** Put along a path of two segments, spelled out. */
  lemma PutTwo(m: Entries, x: string, y: string, n: Entries)
    requires Sub(m, [x, y]).Some?
    ensures x in m && m[x].Branch?
    ensures Put(m, [x, y], n) == m[x := Branch(m[x].entries[y := Branch(n)])]
  {
    assert [x, y][1..] == [y] && [y][1..] == [];
  }

  lemma PutOne(m: Entries, x: string, n: Entries)
    requires Sub(m, [x]).Some?
    ensures x in m && m[x].Branch?
    ensures Put(m, [x], n) == m[x := Branch(n)]
  {
    assert [x][1..] == [];
  }

  lemma SubTwo(m: Entries, x: string, y: string)
    requires x in m && m[x].Branch? && y in m[x].entries && m[x].entries[y].Branch?
    ensures Sub(m, [x, y]) == Some(m[x].entries[y].entries)
  {
    assert [x, y][1..] == [y];
    SubOne(m[x].entries, y);
  }

  /** The first steps of the daemon's revoke on a present node, named. */
  lemma RevokeAsWrittenUnfold(root: Entries, parts: seq<string>, extra: nat) returns (p: Entries, r1: Entries)
    requires |parts| > 0 && Present(root, parts)
    ensures p == Sub(root, parts[..|parts| - 1]).value - {parts[|parts| - 1]}
    ensures r1 == Put(root, parts[..|parts| - 1], p) && Sub(r1, parts[..|parts| - 1]) == Some(p)
    ensures Sub(r1, parts[..CleanupLevel(|parts| - 1)]).Some?
    ensures var sz := |parts| - 1;
      var after :=
        if FoldApplies(p, sz) then FoldAsWritten(r1, parts, p)
        else Cleanup(r1, parts, CleanupLevel(sz), |p| + (if sz == 0 then extra else 0) == 0);
      RevokeAsWritten(root, parts, extra) == Revoke(Code(after, extra), after)
  {
    var sz := |parts| - 1;
    p := Sub(root, parts[..sz]).value - {parts[sz]};
    r1 := Put(root, parts[..sz], p);
    assert parts[..sz][..CleanupLevel(sz)] == parts[..CleanupLevel(sz)];
  }

  lemma RevokePathUnfold(root: Entries, parts: seq<string>, extra: nat) returns (p: Entries, r1: Entries)
    requires |parts| > 1 && Present(root, parts)
    ensures p == Sub(root, parts[..|parts| - 1]).value - {parts[|parts| - 1]}
    ensures r1 == Put(root, parts[..|parts| - 1], p) && Sub(r1, parts[..|parts| - 1]) == Some(p)
    ensures Sub(r1, parts[..|parts| - 2]).Some?
    ensures RevokePath(root, parts, extra) == Revoke(Code(Compact(r1, parts), extra), Compact(r1, parts))
  {
    var sz := |parts| - 1;
    p := Sub(root, parts[..sz]).value - {parts[sz]};
    r1 := Put(root, parts[..sz], p);
    assert parts[..sz][..sz - 1] == parts[..sz - 1];
  }

  /**
   * Revoking /a/b/y: the daemon folds "b" using the first key of "a" (which
   * is "b" itself, absent from the branch), so "b" and then "a" are deleted
   * and the grant on /a/b/x is lost; the intended revoke leaves "b" holding
   * "." and "x", since folding it into either would change a level.
   */
  lemma FoldLosesEntry()
    ensures RevokeAsWritten(FoldTree(), ["a", "b", "y"], 0) == Revoke(2, map[])
    ensures RevokePath(FoldTree(), ["a", "b", "y"], 0)
      == Revoke(1, map["a" := Branch(map["b" := Branch(map["." := Leaf(Read), "x" := Leaf(Write)])])])
  {
    var parts := ["a", "b", "y"];
    var p, r1 := FoldTreeRemoved(parts);
    FoldAsWrittenHere(r1, parts, p);
    CompactKeepsHere(r1, parts, p);
  }

  /** The corrected revoke leaves "b" as it is: it holds more than an equal "." and "*". */
  lemma CompactKeepsHere(r1: Entries, parts: seq<string>, p: Entries)
    requires p == map["." := Leaf(Read), "x" := Leaf(Write)] && parts == ["a", "b", "y"]
    requires Sub(r1, parts[..2]) == Some(p)
    ensures Compact(r1, parts) == r1
  {
    assert parts[..2] == ["a", "b"];
    assert "x" in p.Keys && p.Keys != {".", "*"};
    assert !EqualPair(p) && |p| != 0;
  }

  /** The branch "b" once "y" is gone, and the tree holding it. */
  lemma FoldTreeRemoved(parts: seq<string>) returns (p: Entries, r1: Entries)
    requires parts == ["a", "b", "y"]
    ensures p == map["." := Leaf(Read), "x" := Leaf(Write)] && r1 == map["a" := Branch(map["b" := Branch(p)])]
    ensures Sub(r1, parts[..2]) == Some(p) && FoldApplies(p, 2)
    ensures RevokeAsWritten(FoldTree(), parts, 0) == Revoke(Code(FoldAsWritten(r1, parts, p), 0), FoldAsWritten(r1, parts, p))
    ensures RevokePath(FoldTree(), parts, 0) == Revoke(Code(Compact(r1, parts), 0), Compact(r1, parts))
  {
    var t := FoldTree();
    assert parts[..2] == ["a", "b"];
    SubTwo(t, "a", "b");
    assert Present(t, parts);
    p, r1 := RevokeAsWrittenUnfold(t, parts, 0);
    var p', r1' := RevokePathUnfold(t, parts, 0);
    assert p == p' && r1 == r1';
    FoldTreeStep(t, p, r1);
  }

  lemma FoldTreeStep(t: Entries, p: Entries, r1: Entries)
    requires t == FoldTree() && Sub(t, ["a", "b"]).Some?
    requires p == Sub(t, ["a", "b"]).value - {"y"} && r1 == Put(t, ["a", "b"], p)
    ensures p == map["." := Leaf(Read), "x" := Leaf(Write)] && r1 == map["a" := Branch(map["b" := Branch(p)])]
  {
    SubTwo(t, "a", "b");
    assert p == map["." := Leaf(Read), "x" := Leaf(Write)];
    PutTwo(t, "a", "b", p);
    assert t["a"].entries["b" := Branch(p)] == map["b" := Branch(p)];
  }

  lemma SubOne(m: Entries, x: string)
    requires x in m && m[x].Branch?
    ensures Sub(m, [x]) == Some(m[x].entries)
  {
    assert [x][1..] == [];
  }

  lemma FoldAsWrittenHere(r1: Entries, parts: seq<string>, p: Entries)
    requires p == map["." := Leaf(Read), "x" := Leaf(Write)] && r1 == map["a" := Branch(map["b" := Branch(p)])]
    requires parts == ["a", "b", "y"] && Sub(r1, parts[..2]) == Some(p)
    ensures FoldAsWritten(r1, parts, p) == map[]
  {
    assert parts[..2] == ["a", "b"] && parts[..1] == ["a"] && parts[..0] == [];
    var p1 := p - {"."};
    var q := map["b" := Branch(p1)];
    var r2 := map["a" := Branch(q)];
    FoldHereDropDot(r1, p, p1);
    SubOne(r2, "a");
    assert q.Keys == {"b"};
    assert Least(q.Keys) == "b";
    var empty: Entries := map[];
    assert q - {"b"} == empty;
    PutOne(r2, "a", empty);
    var r3 := map["a" := Branch(empty)];
    assert Put(r2, ["a"], empty) == r3;
    assert Cleanup(r3, parts, 0, true) == empty;
  }

  lemma FoldHereDropDot(r1: Entries, p: Entries, p1: Entries)
    requires p == map["." := Leaf(Read), "x" := Leaf(Write)] && r1 == map["a" := Branch(map["b" := Branch(p)])]
    requires p1 == p - {"."} && Sub(r1, ["a", "b"]) == Some(p)
    ensures p1 == map["x" := Leaf(Write)]
    ensures Put(r1, ["a", "b"], p1) == map["a" := Branch(map["b" := Branch(p1)])]
  {
    assert p1 == map["x" := Leaf(Write)];
    PutTwo(r1, "a", "b", p1);
    var q := map["b" := Branch(p1)];
    assert r1["a"].entries == map["b" := Branch(p)];
    assert map["b" := Branch(p)]["b" := Branch(p1)] == q;
    assert r1["a" := Branch(q)] == map["a" := Branch(q)];
  }

  /** The root's "*" is Read; "b" gives itself Read and what lies below it Write. */
  function RaiseTree(): Entries
  {
    map["*" := Leaf(Read), "a" := Branch(map["b" := Branch(map["." := Leaf(Read), "*" := Leaf(Write), "y" := Leaf(GrantRead)])])]
  }

  /**
   * Revoking /a/b/y: the daemon drops the "." of "b" and folds "b" into its
   * "*", so /a/b itself goes from Read to Write; the intended revoke leaves
   * the level of /a/b alone.
   */
  lemma FoldRaisesLevel()
    ensures OwnLevel(RaiseTree(), ["a", "b"]) == Read
    ensures RevokeAsWritten(RaiseTree(), ["a", "b", "y"], 0)
      == Revoke(1, map["*" := Leaf(Read), "a" := Branch(map["b" := Leaf(Write)])])
    ensures OwnLevel(RevokeAsWritten(RaiseTree(), ["a", "b", "y"], 0).tree, ["a", "b"]) == Write
    ensures OwnLevel(RevokePath(RaiseTree(), ["a", "b", "y"], 0).tree, ["a", "b"]) == Read
  {
    var parts := ["a", "b", "y"];
    var p, r1 := RaiseTreeRemoved(parts);
    FoldRaisesHere(r1, parts, p);
    RaiseLevels();
    assert ["a", "b"][..2] != parts;
    RevokeKeepsLevels(RaiseTree(), parts, 0, ["a", "b"]);
  }

  /** /a/b before and after the daemon's fold. */
  lemma RaiseLevels()
    ensures OwnLevel(RaiseTree(), ["a", "b"]) == Read
    ensures OwnLevel(map["*" := Leaf(Read), "a" := Branch(map["b" := Leaf(Write)])], ["a", "b"]) == Write
  {
    assert ["a", "b"][1..] == ["b"] && ["b"][1..] == [];
  }

  /** The branch "b" of RaiseTree once "y" is gone, and the tree holding it. */
  lemma RaiseTreeRemoved(parts: seq<string>) returns (p: Entries, r1: Entries)
    requires parts == ["a", "b", "y"]
    ensures p == map["." := Leaf(Read), "*" := Leaf(Write)]
    ensures r1 == map["*" := Leaf(Read), "a" := Branch(map["b" := Branch(p)])]
    ensures Sub(r1, parts[..2]) == Some(p) && FoldApplies(p, 2)
    ensures RevokeAsWritten(RaiseTree(), parts, 0) == Revoke(Code(FoldAsWritten(r1, parts, p), 0), FoldAsWritten(r1, parts, p))
  {
    var t := RaiseTree();
    assert parts[..2] == ["a", "b"];
    SubTwo(t, "a", "b");
    assert Present(t, parts);
    p, r1 := RevokeAsWrittenUnfold(t, parts, 0);
    RaiseTreeStep(t, p, r1);
  }

  lemma RaiseTreeStep(t: Entries, p: Entries, r1: Entries)
    requires t == RaiseTree() && Sub(t, ["a", "b"]).Some?
    requires p == Sub(t, ["a", "b"]).value - {"y"} && r1 == Put(t, ["a", "b"], p)
    ensures p == map["." := Leaf(Read), "*" := Leaf(Write)]
    ensures r1 == map["*" := Leaf(Read), "a" := Branch(map["b" := Branch(p)])]
  {
    SubTwo(t, "a", "b");
    assert p == map["." := Leaf(Read), "*" := Leaf(Write)];
    PutTwo(t, "a", "b", p);
    assert t["a"].entries["b" := Branch(p)] == map["b" := Branch(p)];
  }

  lemma FoldRaisesHere(r1: Entries, parts: seq<string>, p: Entries)
    requires p == map["." := Leaf(Read), "*" := Leaf(Write)]
    requires r1 == map["*" := Leaf(Read), "a" := Branch(map["b" := Branch(p)])]
    requires parts == ["a", "b", "y"] && Sub(r1, parts[..2]) == Some(p)
    ensures FoldAsWritten(r1, parts, p) == map["*" := Leaf(Read), "a" := Branch(map["b" := Leaf(Write)])]
  {
    assert parts[..2] == ["a", "b"] && parts[..1] == ["a"] && parts[..0] == [];
    var p1 := p - {"."};
    var q := map["b" := Branch(p1)];
    var r2 := map["*" := Leaf(Read), "a" := Branch(q)];
    RaiseDropDot(r1, p, p1);
    SubOne(r2, "a");
    var q' := map["b" := Leaf(Write)];
    assert q["b" := p1["*"]] == q';
    PutOne(r2, "a", q');
    assert r2["a" := Branch(q')] == map["*" := Leaf(Read), "a" := Branch(q')];
  }

  lemma RaiseDropDot(r1: Entries, p: Entries, p1: Entries)
    requires p == map["." := Leaf(Read), "*" := Leaf(Write)]
    requires r1 == map["*" := Leaf(Read), "a" := Branch(map["b" := Branch(p)])]
    requires p1 == p - {"."} && Sub(r1, ["a", "b"]) == Some(p)
    ensures p1 == map["*" := Leaf(Write)]
    ensures Put(r1, ["a", "b"], p1) == map["*" := Leaf(Read), "a" := Branch(map["b" := Branch(p1)])]
  {
    assert p1 == map["*" := Leaf(Write)];
    PutTwo(r1, "a", "b", p1);
    var q := map["b" := Branch(p1)];
    assert r1["a"].entries == map["b" := Branch(p)];
    assert map["b" := Branch(p)]["b" := Branch(p1)] == q;
    assert r1["a" := Branch(q)] == map["*" := Leaf(Read), "a" := Branch(q)];
  }

  /** "a" holds the branch "b" and the leaf "c". */
  function CleanupTree(): Entries
  {
    map["a" := Branch(map["b" := Branch(map["y" := Leaf(GrantRead)]), "c" := Leaf(GrantGrant)])]
  }

  /**
   * Revoking /a/b/y empties "b"; the daemon then deletes "a" (two levels up)
   * instead of "b", and the grant on /a/c is lost with it.
   */
  lemma CleanupLosesSibling()
    ensures RevokeAsWritten(CleanupTree(), ["a", "b", "y"], 0) == Revoke(2, map[])
    ensures !OffPathKept(CleanupTree(), RevokeAsWritten(CleanupTree(), ["a", "b", "y"], 0).tree, ["a", "b", "y"], 2)
    ensures RevokePath(CleanupTree(), ["a", "b", "y"], 0) == Revoke(1, map["a" := Branch(map["c" := Leaf(GrantGrant)])])
  {
    var parts := ["a", "b", "y"];
    var a, r1 := CleanupTreeRemoved(parts);
    CleanupHere(r1, a, parts);
    CleanupCompact(r1, a, parts);
    assert parts[..1] == ["a"];
    SubOne(CleanupTree(), "a");
    var empty: Entries := map[];
    assert Sub(empty, parts[..1]) == None;
  }

  /** The tree once "y" is gone from "b". */
  lemma CleanupTreeRemoved(parts: seq<string>) returns (a: Entries, r1: Entries)
    requires parts == ["a", "b", "y"]
    ensures a == map["b" := Branch(map[]), "c" := Leaf(GrantGrant)] && r1 == map["a" := Branch(a)]
    ensures Sub(r1, parts[..0]).Some? && Sub(r1, parts[..1]).Some? && Sub(r1, parts[..2]).Some?
    ensures RevokeAsWritten(CleanupTree(), parts, 0) == Revoke(Code(Cleanup(r1, parts, 0, true), 0), Cleanup(r1, parts, 0, true))
    ensures RevokePath(CleanupTree(), parts, 0) == Revoke(Code(Compact(r1, parts), 0), Compact(r1, parts))
  {
    var t := CleanupTree();
    assert parts[..2] == ["a", "b"] && parts[..1] == ["a"] && parts[..0] == [];
    SubTwo(t, "a", "b");
    assert Present(t, parts);
    var p, r1' := RevokeAsWrittenUnfold(t, parts, 0);
    var p', r1'' := RevokePathUnfold(t, parts, 0);
    assert p == p' && r1' == r1'';
    a, r1 := CleanupTreeStep(t, p, r1');
    assert Sub(r1, parts[..2]) == Some(p);
    SubOne(r1, "a");
  }

  lemma CleanupCompact(r1: Entries, a: Entries, parts: seq<string>)
    requires a == map["b" := Branch(map[]), "c" := Leaf(GrantGrant)] && r1 == map["a" := Branch(a)]
    requires parts == ["a", "b", "y"]
    ensures Sub(r1, parts[..2]).Some? && Sub(r1, parts[..1]).Some?
    ensures Compact(r1, parts) == Cleanup(r1, parts, 1, true)
  {
    assert parts[..2] == ["a", "b"] && parts[..1] == ["a"];
    SubTwo(r1, "a", "b");
    SubOne(r1, "a");
    var empty: Entries := map[];
    assert Sub(r1, parts[..2]) == Some(empty) && !EqualPair(empty);
  }

  lemma CleanupTreeStep(t: Entries, p: Entries, r1: Entries) returns (a: Entries, r: Entries)
    requires t == CleanupTree() && Sub(t, ["a", "b"]).Some?
    requires p == Sub(t, ["a", "b"]).value - {"y"} && r1 == Put(t, ["a", "b"], p)
    ensures p == map[] && !FoldApplies(p, 2)
    ensures a == map["b" := Branch(map[]), "c" := Leaf(GrantGrant)] && r == map["a" := Branch(a)] && r == r1
  {
    SubTwo(t, "a", "b");
    var empty: Entries := map[];
    assert p == empty;
    PutTwo(t, "a", "b", empty);
    a := map["b" := Branch(empty), "c" := Leaf(GrantGrant)];
    assert t["a"].entries["b" := Branch(empty)] == a;
    r := map["a" := Branch(a)];
  }

  lemma CleanupHere(r1: Entries, a: Entries, parts: seq<string>)
    requires a == map["b" := Branch(map[]), "c" := Leaf(GrantGrant)] && r1 == map["a" := Branch(a)]
    requires parts == ["a", "b", "y"]
    ensures Sub(r1, parts[..0]).Some? && Sub(r1, parts[..1]).Some?
    ensures Cleanup(r1, parts, 0, true) == map[]
    ensures Cleanup(r1, parts, 1, true) == map["a" := Branch(map["c" := Leaf(GrantGrant)])]
  {
    assert parts[..1] == ["a"] && parts[..0] == [];
    SubOne(r1, "a");
    var empty: Entries := map[];
    assert r1 - {"a"} == empty;
    assert a - {"b"} == map["c" := Leaf(GrantGrant)];
    PutOne(r1, "a", map["c" := Leaf(GrantGrant)]);
  }
}
