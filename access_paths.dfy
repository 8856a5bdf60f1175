/**
 * Path resolution of the LPC access daemon (`_resolve`): a path given
 * relative to `~`, to a home directory, or to a current directory is made
 * absolute, split on `/`, and compacted in place from right to left, so
 * that empty segments vanish, `..` cancels the nearest retained segment to
 * its left and `.` is dropped unless the caller asks to keep it.
 */
module AccessPaths {
  import opened Wrappers
  import opened Strings

  /** The interactive player `this_player()` yields, if any: its real name (nil allowed) and current directory. */
  datatype Player = Player(interactive: bool, name: Option<string>, cwd: string)

  datatype Resolution =
    | NoPath                         // `_resolve` returns 0: a null or empty path
    | RangeError                     // `path[2..]` on the single character "~" is out of range
    | Resolved(parts: seq<string>)

  /** The caller's name and the object whose directory is the fallback cwd (lines 453-458). */
  function CallerOf(caller: Option<string>, player: Option<Player>): (r: (string, Option<Player>))
    ensures caller.Some? ==> r == (caller.value, None)
    ensures caller.None? && r.1.None? ==> r.0 == "nobody"
  {
    if caller.Some? then (caller.value, None)
    else if player.None? || !player.value.interactive || player.value.name.None? then ("nobody", None)
    else (player.value.name.value, player)
  }

  predicate IsUpper(c: char)
  {
    'A' <= c <= 'Z'
  }

  /** The absolute form of a non-empty path (the switch on its first character). */
  function Absolute(path: string, caller: string, cwd: Option<string>, ob: Option<Player>): (r: Option<string>)
    requires |path| > 0
    ensures r.None? <==> path == "~" && (caller == "root" || caller == "backbone")
  {
    if path[0] == '~' then
      if |path| > 1 && path[1] != '/' then
        Some((if IsUpper(path[1]) then "/d/" else "/players/") + path[1..])
      else if caller != "root" && caller != "backbone" then
        Some("/players/" + caller + path[1..])
      else if |path| >= 2 then Some(path[2..])
      else None
    else if path[0] == '/' then
      var i := LeadingSlashes(path, 0);
      Some(path[i - 1..])
    else if cwd == Some("/") then
      Some("/" + path)
    else
      var dir := if cwd.Some? then cwd.value else if ob.Some? then ob.value.cwd else "";
      Some(dir + "/" + path)
  }

  /** The index of the first character at or after i that is not a slash (the `for` loop at line 473). */
  function LeadingSlashes(path: string, i: nat): (r: nat)
    requires i <= |path|
    ensures i <= r <= |path|
    ensures forall k :: i <= k < r ==> path[k] == '/'
    ensures r < |path| ==> path[r] != '/'
    decreases |path| - i
  {
    if i < |path| && path[i] == '/' then LeadingSlashes(path, i + 1) else i
  }

  /** A segment that `_resolve` keeps (unless a `..` to its right cancels it). */
  predicate Kept(seg: string, flag: bool)
  {
    seg != "" && seg != ".." && (seg != "." || flag)
  }

  /** The compaction state: the segments kept so far (rightmost last) and the pending `..` count. */
  datatype Scan = Scan(kept: seq<string>, skip: nat)

  /** One turn of the right-to-left loop at lines 497-512, on the segment to the left of what was seen. */
  function Step(seg: string, st: Scan, flag: bool): Scan
  {
    if seg == "" then st
    else if seg == ".." then Scan(st.kept, st.skip + 1)
    else if seg == "." && !flag then st
    else if st.skip > 0 then Scan(st.kept, st.skip - 1)
    else Scan([seg] + st.kept, 0)
  }

  /** The state after the loop has seen all of ps, starting from st. */
  function ScanFrom(ps: seq<string>, st: Scan, flag: bool): Scan
    decreases |ps|
  {
    if |ps| == 0 then st else Step(ps[0], ScanFrom(ps[1..], st, flag), flag)
  }

  /** What the compaction keeps of the segments ps. */
  function Compact(ps: seq<string>, flag: bool): seq<string>
  {
    ScanFrom(ps, Scan([], 0), flag).kept
  }

  /** `_resolve(path, caller, cwd, flag)`; caller, cwd and this_player() are parameters. */
  function Resolve(path: Option<string>, caller: Option<string>, cwd: Option<string>, player: Option<Player>,
                   flag: bool): (r: Resolution)
    ensures path.None? || path == Some("") ==> r == NoPath
    ensures r.Resolved? ==> AllKept(r.parts, flag)
  {
    if path.None? || path.value == "" then NoPath
    else
      var (who, ob) := CallerOf(caller, player);
      match Absolute(path.value, who, cwd, ob)
      case None => RangeError
      case Some(abs) =>
        CompactKeeps(Split(abs, '/'), flag);
        Resolved(Compact(Split(abs, '/'), flag))
  }

  // ---------------------------------------------------------------------------
  // Properties of the compaction

  predicate AllKept(xs: seq<string>, flag: bool)
  {
    forall i :: 0 <= i < |xs| ==> Kept(xs[i], flag)
  }

  /** Only kept segments survive: no empty segment, no `..`, and `.` only when flag is set. */
  lemma {:induction false} ScanFromKeeps(ps: seq<string>, st: Scan, flag: bool)
    requires AllKept(st.kept, flag)
    ensures AllKept(ScanFrom(ps, st, flag).kept, flag)
    decreases |ps|
  {
    if |ps| > 0 {
      ScanFromKeeps(ps[1..], st, flag);
      var r := ScanFrom(ps[1..], st, flag);
      assert ScanFrom(ps, st, flag) == Step(ps[0], r, flag);
      if Kept(ps[0], flag) && r.skip == 0 {
        var k := [ps[0]] + r.kept;
        forall i | 0 <= i < |k|
          ensures Kept(k[i], flag)
        {
          if i > 0 {
            assert k[i] == r.kept[i - 1];
          }
        }
      }
    }
  }

  lemma CompactKeeps(ps: seq<string>, flag: bool)
    ensures AllKept(Compact(ps, flag), flag)
  {
    ScanFromKeeps(ps, Scan([], 0), flag);
  }

  /** Scanning a + b is scanning b, then a from where b left off. */
  lemma {:induction false} ScanFromAppend(a: seq<string>, b: seq<string>, st: Scan, flag: bool)
    ensures ScanFrom(a + b, st, flag) == ScanFrom(a, ScanFrom(b, st, flag), flag)
    decreases |a|
  {
    if |a| > 0 {
      assert (a + b)[1..] == a[1..] + b && (a + b)[0] == a[0];
      ScanFromAppend(a[1..], b, st, flag);
    } else {
      assert a + b == b;
    }
  }

  /** A kept segment followed by `..` cancels out: `x/..` is as if neither were there. */
  lemma DotDotCancels(p: seq<string>, x: string, q: seq<string>, flag: bool)
    requires Kept(x, flag)
    ensures Compact(p + [x, ".."] + q, flag) == Compact(p + q, flag)
  {
    var st := ScanFrom(q, Scan([], 0), flag);
    ScanFromAppend(p + [x, ".."], q, Scan([], 0), flag);
    ScanFromAppend(p, [x, ".."], st, flag);
    ScanFromAppend(p, q, Scan([], 0), flag);
    assert [x, ".."][1..] == [".."] && [".."][1..] == [];
    assert ScanFrom([".."], st, flag) == Scan(st.kept, st.skip + 1);
    assert ScanFrom([x, ".."], st, flag) == st;
  }

  /** Segments that are all kept pass through unchanged. */
  lemma {:induction false} CleanUnchanged(ps: seq<string>, flag: bool)
    requires AllKept(ps, flag)
    ensures ScanFrom(ps, Scan([], 0), flag) == Scan(ps, 0)
    decreases |ps|
  {
    if |ps| > 0 {
      CleanUnchanged(ps[1..], flag);
      assert [ps[0]] + ps[1..] == ps;
    }
  }

  /** Compaction is idempotent: resolving an already resolved list changes nothing. */
  lemma CompactIdempotent(ps: seq<string>, flag: bool)
    ensures Compact(Compact(ps, flag), flag) == Compact(ps, flag)
  {
    CompactKeeps(ps, flag);
    CleanUnchanged(Compact(ps, flag), flag);
  }

  /** A `..` with nothing kept to its left is simply dropped: `/..` stays at the root. */
  lemma DotDotAtRoot(q: seq<string>, flag: bool)
    ensures Compact([".."] + q, flag) == Compact(q, flag)
  {
    ScanFromAppend([".."], q, Scan([], 0), flag);
  }

  // ---------------------------------------------------------------------------
  // The in-place loop

  /**
   * The compaction loop of `_resolve` on the exploded array: i walks from the
   * right, kept segments are written down from the right end, and the result
   * is the suffix parts[j..].
   */
  method CompactInPlace(parts: array<string>, flag: bool) returns (j: int)
    modifies parts
    ensures 0 <= j <= parts.Length
    ensures parts[j..] == Compact(old(parts[..]), flag)
  {
    ghost var ps := parts[..];
    var i := parts.Length;
    j := parts.Length;
    var skip := 0;
    while i > 0
      invariant 0 <= i <= j <= parts.Length
      invariant parts[..i] == ps[..i]
      invariant Scan(parts[j..], skip) == ScanFrom(ps[i..], Scan([], 0), flag)
      decreases i
    {
      i := i - 1;
      var seg := parts[i];
      assert ps[i..][1..] == ps[i + 1..];
      assert seg == ps[i];
      if seg == "" {
      } else if seg == ".." {
        skip := skip + 1;
      } else if seg == "." && !flag {
      } else if skip > 0 {
        skip := skip - 1;
      } else {
        ghost var tail := parts[j..];
        j := j - 1;
        parts[j] := seg;
        assert parts[j..] == [seg] + tail;
      }
    }
    assert ps[0..] == ps;
  }

  /** `_resolve` with the compaction done by the in-place loop. */
  method ResolvePath(path: Option<string>, caller: Option<string>, cwd: Option<string>, player: Option<Player>,
                     flag: bool) returns (r: Resolution)
    ensures r == Resolve(path, caller, cwd, player, flag)
  {
    if path.None? || path.value == "" {
      return NoPath;
    }
    var (who, ob) := CallerOf(caller, player);
    var abs := Absolute(path.value, who, cwd, ob);
    if abs.None? {
      return RangeError;
    }
    var pieces := Split(abs.value, '/');
    var parts := new string[|pieces|](i requires 0 <= i < |pieces| => pieces[i]);
    assert parts[..] == pieces;
    var j := CompactInPlace(parts, flag);
    r := Resolved(parts[j..]);
  }
}
