/**
 * Properties of `_get_access`: map 0 (the user's own tree) always follows
 * its own tree as a plain recursive descent would; the map that decides is
 * the first one that yields a nonzero level for the last segment; an
 * explicit level in the user's tree beats the home-directory and `open`
 * rules, which otherwise apply; and the worked example of the daemon's
 * header comment.
 */
module AccessEvaluationProperties {
  import opened Wrappers
  import opened AccessLevels
  import opened AccessTrees
  import opened AccessEvaluation

  /** The level a branch yields when a segment moves into it, given the level inherited so far. */
  function BranchLevel(b: Entries, dfl: int, final: bool): int
  {
    if dfl == 0 then Star(b)
    else if final && Dot(b) != 0 then Dot(b)
    else if !final && Star(b) != 0 then Star(b)
    else dfl
  }

  /**
   * One tree read by recursive descent: a leaf decides for its whole
   * subtree, an unnamed segment takes the mapping's `*` (else what was
   * inherited), and a branch passes on its `.` or `*` as BranchLevel says.
   */
  function TreeLevel(m: Entries, parts: seq<string>, dfl: int): int
    decreases |parts|
  {
    if |parts| == 0 then dfl
    else
      match Get(m, parts[0])
      case Leaf(v) => if v != 0 then v else if Star(m) != 0 then Star(m) else dfl
      case Branch(b) => TreeLevel(b, parts[1..], BranchLevel(b, dfl, |parts| == 1))
  }

  /** The level the tree m gives the path. */
  function OwnLevel(m: Entries, parts: seq<string>): int
  {
    TreeLevel(m, parts, Star(m))
  }

  // ---------------------------------------------------------------------------
  // Map 0 is evaluated for every segment

  /** The first map always takes its `eval_map` step, whatever the others do. */
  lemma InnerFirst(part: string, final: bool, dfls: seq<int>, cursors: seq<Option<Entries>>)
    requires |dfls| == |cursors| > 0
    ensures var r := Inner(part, final, dfls, cursors, 0);
      Eval(r.dfls[0], r.cursors[0]) == EvalStep(part, cursors[0], dfls[0], final)
  {
    InnerScan(part, final, dfls, cursors, 0);
  }

  /** Once the first map is exhausted its level no longer changes. */
  lemma {:induction false} FirstExhausted(parts: seq<string>, i: nat, st: Lazy)
    requires i <= |parts| && |st.dfls| == |st.cursors| > 0 && st.cursors[0].None?
    ensures Walk(parts, i, st).dfls[0] == st.dfls[0]
    decreases |parts| - i
  {
    if i < |parts| {
      var next := Inner(parts[i], i == |parts| - 1, st.dfls, st.cursors, 0);
      InnerFirst(parts[i], i == |parts| - 1, st.dfls, st.cursors);
      FirstExhausted(parts, i + 1, next);
    }
  }

  lemma {:induction false} FirstFollows(parts: seq<string>, i: nat, st: Lazy, m: Entries)
    requires i <= |parts| && |st.dfls| == |st.cursors| > 0 && st.cursors[0] == Some(m)
    ensures Walk(parts, i, st).dfls[0] == TreeLevel(m, parts[i..], st.dfls[0])
    decreases |parts| - i
  {
    if i < |parts| {
      var final := i == |parts| - 1;
      var next := Inner(parts[i], final, st.dfls, st.cursors, 0);
      InnerFirst(parts[i], final, st.dfls, st.cursors);
      assert parts[i..][0] == parts[i] && parts[i..][1..] == parts[i + 1..];
      match Get(m, parts[i])
      case Leaf(v) =>
        FirstExhausted(parts, i + 1, next);
      case Branch(b) =>
        FirstFollows(parts, i + 1, next, b);
    }
  }

  /** Whatever the other maps hold, map 0 ends with the level its own tree gives the path. */
  lemma FirstMapFollowsTree(parts: seq<string>, maps: seq<Entries>)
    requires |maps| > 0
    ensures Evaluate(parts, maps).dfls[0] == OwnLevel(maps[0], parts)
  {
    FirstFollows(parts, 0, Initial(maps), maps[0]);
    assert parts[0..] == parts;
  }

  // ---------------------------------------------------------------------------
  // The deciding map

  /** The state before the last segment is read. */
  function Before(parts: seq<string>, i: nat, st: Lazy): (r: Lazy)
    requires i < |parts| && |st.dfls| == |st.cursors|
    ensures |r.dfls| == |r.cursors| == |st.dfls|
    decreases |parts| - i
  {
    if i == |parts| - 1 then st
    else Before(parts, i + 1, Inner(parts[i], false, st.dfls, st.cursors, 0))
  }

  lemma {:induction false} WalkEnds(parts: seq<string>, i: nat, st: Lazy)
    requires i < |parts| && |st.dfls| == |st.cursors|
    ensures var b := Before(parts, i, st);
      Walk(parts, i, st) == Inner(parts[|parts| - 1], true, b.dfls, b.cursors, 0)
    decreases |parts| - i
  {
    if i < |parts| - 1 {
      WalkEnds(parts, i + 1, Inner(parts[i], false, st.dfls, st.cursors, 0));
    }
  }

  /**
   * For a non-empty path the deciding map j is the first one whose level is
   * nonzero: every map before it ends at 0, and j == sizeof(maps) exactly
   * when every map ends at 0.
   */
  lemma FirstNonzeroDecides(parts: seq<string>, maps: seq<Entries>)
    requires |parts| > 0
    ensures var st := Evaluate(parts, maps);
      && (forall k :: 0 <= k < st.j ==> st.dfls[k] == 0)
      && (st.j < |maps| ==> st.dfls[st.j] != 0)
  {
    WalkEnds(parts, 0, Initial(maps));
    var b := Before(parts, 0, Initial(maps));
    InnerScan(parts[|parts| - 1], true, b.dfls, b.cursors, 0);
  }

  /** The empty path (the root) is decided by map 0's `*`. */
  lemma RootByFirstStar(maps: seq<Entries>)
    requires |maps| > 0
    ensures Evaluate([], maps).j == 0 && Evaluate([], maps).dfls[0] == Star(maps[0])
  {
  }

  // ---------------------------------------------------------------------------
  // `_get_access` as a whole

  /** A map set with the user's own tree first: its nonzero level decides, before any rule. */
  lemma OwnTreeOverridesRules(parts: seq<string>, user: string, maps: seq<(string, Option<Entries>)>)
    requires AllPresent(maps) && |maps| > 1 && |parts| > 0
    requires OwnLevel(maps[0].1.value, parts) != 0
    ensures GetAccessOf(parts, user, maps, false) == Granted(OwnLevel(maps[0].1.value, parts), maps[0].0)
  {
    FirstMapFollowsTree(parts, Trees(maps));
    FirstNonzeroDecides(parts, Trees(maps));
  }

  /** When the user's tree sets nothing (or there is only one map), a user's home directory is theirs to grant. */
  lemma HomeDirectoryRule(dir: string, user: string, rest: seq<string>, maps: seq<(string, Option<Entries>)>)
    requires AllPresent(maps) && |maps| > 0 && (dir == "d" || dir == "players")
    requires |maps| == 1 || OwnLevel(maps[0].1.value, [dir, user] + rest) == 0
    ensures GetAccessOf([dir, user] + rest, user, maps, false) == Granted(GrantGrant, "!")
  {
    var parts := [dir, user] + rest;
    FirstMapFollowsTree(parts, Trees(maps));
    FirstNonzeroDecides(parts, Trees(maps));
    assert parts[0] == dir && parts[1] == user;
  }

  /** Under the same condition any other user's or domain's `open` directory is readable. */
  lemma OpenDirectoryRule(dir: string, owner: string, user: string, rest: seq<string>,
                          maps: seq<(string, Option<Entries>)>)
    requires AllPresent(maps) && |maps| > 0 && (dir == "d" || dir == "players") && owner != user
    requires |maps| == 1 || OwnLevel(maps[0].1.value, [dir, owner, "open"] + rest) == 0
    ensures GetAccessOf([dir, owner, "open"] + rest, user, maps, false) == Granted(Read, "!")
  {
    var parts := [dir, owner, "open"] + rest;
    FirstMapFollowsTree(parts, Trees(maps));
    FirstNonzeroDecides(parts, Trees(maps));
    assert parts[0] == dir && parts[1] == owner && parts[2] == "open";
  }

  /**
   * With the default tree alone and no rule that applies, the result is the
   * tree's own level, and a path the tree gives 0 is a runtime error
   * (dfls[1] is read past the end).
   */
  lemma SingleTree(parts: seq<string>, user: string, name: string, m: Entries)
    requires |parts| > 0 && Ruled(parts, user, 0, 1).None? && Ruled(parts, user, 1, 1).None?
    ensures GetAccessOf(parts, user, [(name, Some(m))], false) ==
      if OwnLevel(m, parts) != 0 then Granted(OwnLevel(m, parts), name) else Crash
  {
    var maps := [(name, Some(m))];
    assert Trees(maps) == [m];
    FirstMapFollowsTree(parts, [m]);
    FirstNonzeroDecides(parts, [m]);
  }

  /** A map entry without a tree makes `_get_access` fail, unless the character-file rule applies first. */
  lemma MissingTreeCrashes(parts: seq<string>, user: string, maps: seq<(string, Option<Entries>)>, k: nat)
    requires k < |maps| && maps[k].1.None?
    ensures GetAccessOf(parts, user, maps, false) == Crash
    ensures GetAccessOf(parts, user, maps, true) == Granted(Write, "!")
  {
  }

  // ---------------------------------------------------------------------------
  // One tree

  /** A named leaf decides for the node and everything below it. */
  lemma {:induction false} LeafCoversSubtree(m: Entries, p: string, rest: seq<string>, dfl: int)
    requires LevelAt(m, p) != 0
    ensures TreeLevel(m, [p] + rest, dfl) == m[p].level
  {
    assert ([p] + rest)[0] == p;
  }

  /**
   * `.` and `*` of a branch differ: with something inherited, the branch's
   * own path takes its `.`, a child it does not name takes its `*`.
   */
  lemma {:induction false} DotVersusStar(m: Entries, p: string, q: string, rest: seq<string>, dfl: int)
    requires p in m && m[p].Branch? && dfl != 0
    requires Dot(m[p].entries) != 0 && Star(m[p].entries) != 0 && q !in m[p].entries
    ensures TreeLevel(m, [p], dfl) == Dot(m[p].entries)
    ensures TreeLevel(m, [p, q] + rest, dfl) == Star(m[p].entries)
  {
    var b := m[p].entries;
    var parts := [p, q] + rest;
    assert [p][1..] == [];
    assert parts[0] == p && parts[1..] == [q] + rest && ([q] + rest)[0] == q;
    assert TreeLevel(m, parts, dfl) == TreeLevel(b, [q] + rest, Star(b));
  }

  // ---------------------------------------------------------------------------
  // The example in the header comment of access.c

  function ExampleTree(): Entries
  {
    map["." := Leaf(Read), "*" := Leaf(Read), "data" := Leaf(Revoked), "log" := Leaf(Write),
        "players" := Branch(map["." := Leaf(Read), "*" := Leaf(Revoked), "aedil" := Leaf(GrantGrant),
                                "frogo" := Branch(map["." := Leaf(Read), "*" := Leaf(Revoked)])])]
  }

  lemma ExampleLevels()
    ensures OwnLevel(ExampleTree(), []) == Read
    ensures OwnLevel(ExampleTree(), ["characters"]) == Read
    ensures OwnLevel(ExampleTree(), ["data", "notes"]) == Revoked
    ensures OwnLevel(ExampleTree(), ["log", "driver"]) == Write
    ensures OwnLevel(ExampleTree(), ["players"]) == Read
    ensures OwnLevel(ExampleTree(), ["players", "aedil", "com", "access.c"]) == GrantGrant
    ensures OwnLevel(ExampleTree(), ["players", "dios", "workroom.c"]) == Revoked
    ensures OwnLevel(ExampleTree(), ["players", "frogo"]) == Read
    ensures OwnLevel(ExampleTree(), ["players", "frogo", "workroom.c"]) == Revoked
  {
    var t := ExampleTree();
    var pl := t["players"].entries;
    var fr := pl["frogo"].entries;
    assert Star(t) == Read && Get(t, "characters") == Leaf(0);
    LeafCoversSubtree(t, "data", ["notes"], Read);
    assert ["data"] + ["notes"] == ["data", "notes"];
    LeafCoversSubtree(t, "log", ["driver"], Read);
    assert ["log"] + ["driver"] == ["log", "driver"];
    DotVersusStar(t, "players", "dios", ["workroom.c"], Read);
    assert ["players", "dios"] + ["workroom.c"] == ["players", "dios", "workroom.c"];
    assert TreeLevel(t, ["players", "aedil", "com", "access.c"], Read)
        == TreeLevel(pl, ["aedil", "com", "access.c"], Revoked);
    LeafCoversSubtree(pl, "aedil", ["com", "access.c"], Revoked);
    assert ["aedil"] + ["com", "access.c"] == ["aedil", "com", "access.c"];
    assert TreeLevel(t, ["players", "frogo"], Read) == TreeLevel(pl, ["frogo"], Revoked);
    DotVersusStar(pl, "frogo", "workroom.c", [], Revoked);
    assert TreeLevel(t, ["players", "frogo", "workroom.c"], Read)
        == TreeLevel(pl, ["frogo", "workroom.c"], Revoked);
    assert ["frogo", "workroom.c"] + [] == ["frogo", "workroom.c"];
  }

  /** The same example through `_get_access` with the tree as the only map, for a user the rules do not concern. */
  lemma ExampleAccess()
    ensures GetAccessOf(["players", "frogo"], "guest", [("*", Some(ExampleTree()))], false) == Granted(Read, "*")
    ensures GetAccessOf(["players", "frogo", "workroom.c"], "guest", [("*", Some(ExampleTree()))], false)
         == Granted(Revoked, "*")
    ensures GetAccessOf(["players", "frogo", "workroom.c"], "frogo", [("*", Some(ExampleTree()))], false)
         == Granted(GrantGrant, "!")
  {
    ExampleLevels();
    SingleTree(["players", "frogo"], "guest", "*", ExampleTree());
    SingleTree(["players", "frogo", "workroom.c"], "guest", "*", ExampleTree());
    HomeDirectoryRule("players", "frogo", ["workroom.c"], [("*", Some(ExampleTree()))]);
    assert ["players", "frogo"] + ["workroom.c"] == ["players", "frogo", "workroom.c"];
  }
}
