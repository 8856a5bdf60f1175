/**
 * `_get_access` of the LPC access daemon: every segment of a resolved path
 * is evaluated against the user's maps in priority order (the user's own
 * tree, its groups, the default tree `*`); the first map that yields a
 * nonzero level for a segment ends that segment's scan. Afterwards the home
 * directory and `open` rules may override the result.
 */
module AccessEvaluation {
  import opened Wrappers
  import opened AccessLevels
  import opened AccessTrees

  /** The evaluator's state: every map's level and cursor, and the map the last scan stopped at. */
  datatype Lazy = Lazy(dfls: seq<int>, cursors: seq<Option<Entries>>, j: nat)

  /** The scan of one segment over the maps from j on (the inner loop at lines 706-709). */
  function Inner(part: string, final: bool, dfls: seq<int>, cursors: seq<Option<Entries>>, j: nat): (r: Lazy)
    requires |dfls| == |cursors| && j <= |dfls|
    ensures |r.dfls| == |dfls| && |r.cursors| == |cursors|
    ensures j <= r.j <= |dfls|
    decreases |dfls| - j
  {
    if j == |dfls| then Lazy(dfls, cursors, j)
    else
      var e := EvalStep(part, cursors[j], dfls[j], final);
      var d := dfls[j := e.acc];
      var c := cursors[j := e.cursor];
      if e.acc != 0 then Lazy(d, c, j) else Inner(part, final, d, c, j + 1)
  }

  /**
   * What the scan of one segment does: the maps tried before the one it
   * stops at all yielded 0, the one it stops at yielded a nonzero level
   * (unless every map was tried), each tried map took its `eval_map` step,
   * and no other map changed.
   */
  lemma {:induction false} InnerScan(part: string, final: bool, dfls: seq<int>, cursors: seq<Option<Entries>>, j: nat)
    requires |dfls| == |cursors| && j <= |dfls|
    ensures var r := Inner(part, final, dfls, cursors, j);
      && (forall k :: 0 <= k < |dfls| && (k < j || k > r.j) ==> r.dfls[k] == dfls[k] && r.cursors[k] == cursors[k])
      && (forall k :: j <= k < r.j ==> r.dfls[k] == 0 && Eval(0, r.cursors[k]) == EvalStep(part, cursors[k], dfls[k], final))
      && (r.j < |dfls| ==>
            r.dfls[r.j] != 0 && Eval(r.dfls[r.j], r.cursors[r.j]) == EvalStep(part, cursors[r.j], dfls[r.j], final))
    decreases |dfls| - j
  {
    if j < |dfls| {
      var e := EvalStep(part, cursors[j], dfls[j], final);
      var d := dfls[j := e.acc];
      var c := cursors[j := e.cursor];
      if e.acc == 0 {
        InnerScan(part, final, d, c, j + 1);
      }
    }
  }

  /** The outer loop over the segments from i on (lines 705-710). */
  function Walk(parts: seq<string>, i: nat, st: Lazy): (r: Lazy)
    requires i <= |parts| && |st.dfls| == |st.cursors|
    ensures |r.dfls| == |st.dfls| && |r.cursors| == |st.cursors|
    ensures st.j <= |st.dfls| ==> r.j <= |r.dfls|
    decreases |parts| - i
  {
    if i == |parts| then st
    else
      var next := Inner(parts[i], i == |parts| - 1, st.dfls, st.cursors, 0);
      Walk(parts, i + 1, next)
  }

  /** Before the first segment every map yields its own `*` and sits at its root. */
  function Initial(maps: seq<Entries>): (st: Lazy)
    ensures |st.dfls| == |st.cursors| == |maps| && st.j == 0
  {
    Lazy(seq(|maps|, k requires 0 <= k < |maps| => Star(maps[k])),
         seq(|maps|, k requires 0 <= k < |maps| => Some(maps[k])), 0)
  }

  function Evaluate(parts: seq<string>, maps: seq<Entries>): (st: Lazy)
    ensures |st.dfls| == |st.cursors| == |maps| && st.j <= |maps|
  {
    Walk(parts, 0, Initial(maps))
  }

  /** What `_get_access` returns: a level and the name of the map that gave it ("!" for a ruled level), or a runtime error. */
  datatype Outcome = Granted(level: int, source: string) | Crash

  predicate AllPresent(maps: seq<(string, Option<Entries>)>)
  {
    forall k :: 0 <= k < |maps| ==> maps[k].1.Some?
  }

  function Trees(maps: seq<(string, Option<Entries>)>): (ts: seq<Entries>)
    requires AllPresent(maps)
    ensures |ts| == |maps|
    ensures forall k :: 0 <= k < |maps| ==> ts[k] == maps[k].1.value
  {
    seq(|maps|, k requires 0 <= k < |maps| => maps[k].1.value)
  }

  /** The home directory and `open` rules (lines 723-730), applied when no explicit user-tree entry decided. */
  function Ruled(parts: seq<string>, user: string, j: nat, mapc: nat): Option<int>
  {
    if |parts| >= 2 && (parts[0] == "d" || parts[0] == "players") && (j != 0 || mapc == 1) then
      if parts[1] == user then Some(GrantGrant)
      else if |parts| >= 3 && parts[2] == "open" then Some(Read)
      else None
    else None
  }

  /**
   * `_get_access(path, user, maps)` on the resolved path; ownCharFile is the
   * character-file test at lines 683-685. A map entry without a tree (nil)
   * is indexed by the code and is a runtime error, as is a scan that ends
   * with every map yielding 0 on the last segment (j == sizeof(maps)).
   */
  function GetAccessOf(parts: seq<string>, user: string, maps: seq<(string, Option<Entries>)>, ownCharFile: bool)
    : Outcome
  {
    if ownCharFile then Granted(Write, "!")
    else if !AllPresent(maps) then Crash
    else
      var st := Evaluate(parts, Trees(maps));
      match Ruled(parts, user, st.j, |maps|)
      case Some(level) => Granted(level, "!")
      case None => if st.j < |maps| then Granted(st.dfls[st.j], maps[st.j].0) else Crash
  }

  /** The first loop of `_get_access`: every map's default and its root; None when a map has no tree. */
  method Prepare(maps: seq<(string, Option<Entries>)>) returns (dfls: array<int>, list: array<Option<Entries>>, ok: bool)
    ensures fresh(dfls) && fresh(list) && dfls.Length == list.Length == |maps|
    ensures ok == AllPresent(maps)
    ensures ok ==> dfls[..] == Initial(Trees(maps)).dfls && list[..] == Initial(Trees(maps)).cursors
  {
    var mapc := |maps|;
    dfls := new int[mapc];
    list := new Option<Entries>[mapc];
    var i := 0;
    while i < mapc
      invariant 0 <= i <= mapc
      invariant forall k :: 0 <= k < i ==> maps[k].1.Some? && dfls[k] == Star(maps[k].1.value) && list[k] == maps[k].1
    {
      if maps[i].1.None? {
        return dfls, list, false;
      }
      dfls[i] := Star(maps[i].1.value);
      list[i] := maps[i].1;
      i := i + 1;
    }
    ok := true;
  }

  /** The inner loop: each map in turn takes its `eval_map` step until one yields a nonzero level. */
  method Scan(part: string, final: bool, dfls: array<int>, list: array<Option<Entries>>) returns (j: nat)
    requires dfls.Length == list.Length
    modifies dfls, list
    ensures Lazy(dfls[..], list[..], j) == Inner(part, final, old(dfls[..]), old(list[..]), 0)
  {
    ghost var target := Inner(part, final, dfls[..], list[..], 0);
    var mapc := dfls.Length;
    j := 0;
    var stop := false;
    while j < mapc && !stop
      invariant 0 <= j <= mapc
      invariant !stop ==> Inner(part, final, dfls[..], list[..], j) == target
      invariant stop ==> j < mapc && Lazy(dfls[..], list[..], j) == target
      decreases mapc - j, if stop then 0 else 1
    {
      ghost var d, c := dfls[..], list[..];
      var acc := EvalMap(part, list, j, dfls[j], final);
      dfls[j] := acc;
      assert dfls[..] == d[j := acc] && list[..] == c[j := list[j]];
      if acc != 0 {
        stop := true;
      } else {
        j := j + 1;
      }
    }
  }

  /** The lazy evaluation loops of `_get_access`, over the arrays dfls and _maps. */
  method GetAccess(parts: seq<string>, user: string, maps: seq<(string, Option<Entries>)>, ownCharFile: bool)
    returns (r: Outcome)
    ensures r == GetAccessOf(parts, user, maps, ownCharFile)
  {
    if ownCharFile {
      return Granted(Write, "!");
    }
    var dfls, list, ok := Prepare(maps);
    if !ok {
      return Crash;
    }
    var sz := |parts|;
    var j: nat := 0;
    var i := 0;
    while i < sz
      invariant 0 <= i <= sz && dfls.Length == list.Length == |maps|
      invariant Walk(parts, i, Lazy(dfls[..], list[..], j)) == Evaluate(parts, Trees(maps))
    {
      j := Scan(parts[i], i == sz - 1, dfls, list);
      i := i + 1;
    }
    assert Lazy(dfls[..], list[..], j) == Evaluate(parts, Trees(maps));
    match Ruled(parts, user, j, |maps|)
    case Some(level) =>
      r := Granted(level, "!");
    case None =>
      if j < |maps| {
        r := Granted(dfls[j], maps[j].0);
      } else {
        r := Crash;
      }
  }
}
