/**
 * Permission resolution of the Go port. A path, given as its segments,
 * first gets the implicit home-directory and `open` levels; otherwise the
 * user's own tree, then each of the user's groups in order, then the
 * default tree `*` are consulted, and the first answer that is not
 * Revoked wins.
 */
module Authorizer {
  import opened Wrappers
  import opened AuthorizationTypes

  /** Player levels the implicit group rule tests (the playerdata level table). */
  const JuniorArch := 40
  const Elder := 42
  const Archwizard := 45

  /**
   * getImplicitPermission: GrantGrant under `players/<username>`, Read on
   * exactly `players/<someone>/open`, otherwise no implicit level.
   */
  function ImplicitPermission(username: string, parts: seq<string>): (r: (Permission, bool))
    ensures !r.1 ==> r.0 == Revoked
  {
    if |parts| >= 2 && parts[0] == "players" then
      if parts[1] == username then (GrantGrant, true)
      else if |parts| >= 3 && parts[2] == "open" && |parts| == 3 then (Read, true)
      else (Revoked, false)
    else (Revoked, false)
  }

  /** The implicit levels, case by case; a `d/<username>` path gets none. */
  lemma ImplicitPermissionCases(username: string, parts: seq<string>)
    ensures ImplicitPermission(username, parts) == (GrantGrant, true)
            <==> |parts| >= 2 && parts[0] == "players" && parts[1] == username
    ensures ImplicitPermission(username, parts) == (Read, true)
            <==> |parts| == 3 && parts[0] == "players" && parts[1] != username && parts[2] == "open"
    ensures ImplicitPermission(username, parts).1
            ==> ImplicitPermission(username, parts) in {(GrantGrant, true), (Read, true)}
    ensures |parts| >= 1 && parts[0] == "d" ==> !ImplicitPermission(username, parts).1
  {
  }

  /**
   * checkNodePermission: at the end of the path the node's own level
   * unless that is Revoked, else its default; a matching child decides
   * alone; with no matching child the node's default decides.
   */
  function CheckNodePermission(node: Option<AccessNode>, parts: seq<string>): (r: Permission)
    ensures node.None? ==> r == Revoked
    decreases |parts|
  {
    match node
    case None => Revoked
    case Some(n) =>
      if |parts| == 0 then
        if n.dot != Revoked then n.dot else n.star
      else if parts[0] in n.children then
        CheckNodePermission(Some(n.children[parts[0]]), parts[1..])
      else n.star
  }

  /** The deepest node a path reaches through matching children, and how many segments it matched. */
  function Descend(n: AccessNode, parts: seq<string>): (r: (AccessNode, nat))
    ensures r.1 <= |parts|
    decreases |parts|
  {
    if |parts| == 0 || parts[0] !in n.children then (n, 0)
    else
      var d := Descend(n.children[parts[0]], parts[1..]);
      (d.0, d.1 + 1)
  }

  /**
   * Only the deepest matched node decides: its own level (else its default)
   * when it is the path's target, its default otherwise. Defaults of the
   * nodes above it never apply, even when it answers Revoked.
   */
  lemma {:induction false} CheckIsDeepestMatch(n: AccessNode, parts: seq<string>)
    ensures var d := Descend(n, parts);
      CheckNodePermission(Some(n), parts)
      == if d.1 == |parts| then (if d.0.dot != Revoked then d.0.dot else d.0.star) else d.0.star
    decreases |parts|
  {
    if |parts| > 0 && parts[0] in n.children {
      CheckIsDeepestMatch(n.children[parts[0]], parts[1..]);
    }
  }

  /** getImplicitGroups: Arch_full from Archwizard on, else Arch_junior from JuniorArch on except for Elders; only groups whose tree exists. */
  function ImplicitGroups(trees: map<string, AccessTree>, levels: map<string, int>, username: string): seq<string>
  {
    if username !in levels then []
    else
      var level := levels[username];
      if GroupArchFull in trees && level >= Archwizard then [GroupArchFull]
      else if GroupArchJunior in trees && level >= JuniorArch && level != Elder then [GroupArchJunior]
      else []
  }

  /** The level rule in both directions: at most one implicit group, and exactly when its conditions hold. */
  lemma ImplicitGroupRule(trees: map<string, AccessTree>, levels: map<string, int>, username: string)
    ensures |ImplicitGroups(trees, levels, username)| <= 1
    ensures GroupArchFull in ImplicitGroups(trees, levels, username)
            <==> username in levels && GroupArchFull in trees && levels[username] >= Archwizard
    ensures GroupArchJunior in ImplicitGroups(trees, levels, username)
            <==> && username in levels && GroupArchJunior in trees
                 && levels[username] >= JuniorArch && levels[username] != Elder
                 && !(GroupArchFull in trees && levels[username] >= Archwizard)
  {
  }

  /** The groups collected from the user's own tree. */
  function ExplicitGroups(trees: map<string, AccessTree>, username: string): seq<string>
  {
    if username in trees then trees[username].groups else []
  }

  /** Every group of the user, as GetGroups lists them: implicit groups first, then the tree's own. */
  function UserGroups(trees: map<string, AccessTree>, levels: map<string, int>, username: string): seq<string>
  {
    ImplicitGroups(trees, levels, username) + ExplicitGroups(trees, username)
  }

  /** The first group, in list order, whose tree exists and answers something other than Revoked. */
  function FirstGroupGrant(trees: map<string, AccessTree>, groups: seq<string>, parts: seq<string>): Option<Permission>
    decreases |groups|
  {
    if |groups| == 0 then None
    else if groups[0] in trees && CheckNodePermission(trees[groups[0]].root, parts) != Revoked then
      Some(CheckNodePermission(trees[groups[0]].root, parts))
    else FirstGroupGrant(trees, groups[1..], parts)
  }

  /** GetEffectivePermission on path segments, with every group of the user. */
  function EffectivePermission(trees: map<string, AccessTree>, levels: map<string, int>,
                               username: string, parts: seq<string>): Permission
  {
    var implicit := ImplicitPermission(username, parts);
    if implicit.1 then implicit.0
    else if username in trees && CheckNodePermission(trees[username].root, parts) != Revoked then
      CheckNodePermission(trees[username].root, parts)
    else
      var g := FirstGroupGrant(trees, UserGroups(trees, levels, username), parts);
      if g.Some? then g.value
      else if "*" in trees then CheckNodePermission(trees["*"].root, parts)
      else Revoked
  }

  /** The answers of the named trees that exist, in the given order. */
  function Answers(trees: map<string, AccessTree>, names: seq<string>, parts: seq<string>): seq<Permission>
    decreases |names|
  {
    if |names| == 0 then []
    else (if names[0] in trees then [CheckNodePermission(trees[names[0]].root, parts)] else [])
         + Answers(trees, names[1..], parts)
  }

  /** The first answer that is not Revoked, or Revoked. */
  function FirstNonRevoked(answers: seq<Permission>): (r: Permission)
    ensures r == Revoked || r in answers
    decreases |answers|
  {
    if |answers| == 0 then Revoked
    else if answers[0] != Revoked then answers[0]
    else FirstNonRevoked(answers[1..])
  }

  lemma {:induction false} FirstNonRevokedAppend(a: seq<Permission>, b: seq<Permission>)
    ensures FirstNonRevoked(a + b) == if FirstNonRevoked(a) != Revoked then FirstNonRevoked(a) else FirstNonRevoked(b)
    decreases |a|
  {
    if |a| > 0 {
      assert (a + b)[1..] == a[1..] + b;
      FirstNonRevokedAppend(a[1..], b);
    } else {
      assert a + b == b;
    }
  }

  lemma {:induction false} FirstGroupGrantIsFirstAnswer(trees: map<string, AccessTree>, groups: seq<string>, parts: seq<string>)
    ensures FirstGroupGrant(trees, groups, parts).Some?
            <==> FirstNonRevoked(Answers(trees, groups, parts)) != Revoked
    ensures FirstGroupGrant(trees, groups, parts).Some?
            ==> FirstGroupGrant(trees, groups, parts).value == FirstNonRevoked(Answers(trees, groups, parts))
    decreases |groups|
  {
    if |groups| > 0 {
      FirstGroupGrantIsFirstAnswer(trees, groups[1..], parts);
      var head := if groups[0] in trees then [CheckNodePermission(trees[groups[0]].root, parts)] else [];
      FirstNonRevokedAppend(head, Answers(trees, groups[1..], parts));
    }
  }

  /**
   * The priority order as one list: without an implicit level, the
   * effective permission is the first non-Revoked answer among the user's
   * tree, the group trees in group order and the default tree, and Revoked
   * when every one of them answers Revoked or none exists.
   */
  lemma EffectiveIsFirstAnswer(trees: map<string, AccessTree>, levels: map<string, int>,
                               username: string, parts: seq<string>)
    requires !ImplicitPermission(username, parts).1
    ensures EffectivePermission(trees, levels, username, parts)
            == FirstNonRevoked(Answers(trees, [username] + UserGroups(trees, levels, username) + ["*"], parts))
  {
    var groups := UserGroups(trees, levels, username);
    var names := [username] + groups + ["*"];
    AnswersAppend(trees, [username], groups + ["*"], parts);
    AnswersAppend(trees, groups, ["*"], parts);
    assert names == [username] + (groups + ["*"]);
    FirstNonRevokedAppend(Answers(trees, [username], parts), Answers(trees, groups + ["*"], parts));
    FirstNonRevokedAppend(Answers(trees, groups, parts), Answers(trees, ["*"], parts));
    FirstGroupGrantIsFirstAnswer(trees, groups, parts);
    assert [username][1..] == [] && ["*"][1..] == [];
    var ua := Answers(trees, [username], parts);
    var sa := Answers(trees, ["*"], parts);
    assert ua == if username in trees then [CheckNodePermission(trees[username].root, parts)] else [];
    assert sa == if "*" in trees then [CheckNodePermission(trees["*"].root, parts)] else [];
    assert FirstNonRevoked(sa) == if "*" in trees then CheckNodePermission(trees["*"].root, parts) else Revoked;
  }

  lemma {:induction false} AnswersAppend(trees: map<string, AccessTree>, a: seq<string>, b: seq<string>, parts: seq<string>)
    ensures Answers(trees, a + b, parts) == Answers(trees, a, parts) + Answers(trees, b, parts)
    decreases |a|
  {
    if |a| > 0 {
      assert (a + b)[1..] == a[1..] + b;
      AnswersAppend(trees, a[1..], b, parts);
    } else {
      assert a + b == b;
    }
  }

  /**
   * The authorizer over its cached trees and the levels of the characters
   * its character source can load (a name missing from `levels` stands for
   * a missing source or a failed load).
   */
  class Authorizer {
    var trees: map<string, AccessTree>
    var levels: map<string, int>

    constructor(trees: map<string, AccessTree>, levels: map<string, int>)
      ensures this.trees == trees && this.levels == levels
    {
      this.trees := trees;
      this.levels := levels;
    }

    method GetImplicitGroups(username: string) returns (groups: seq<string>)
      ensures groups == ImplicitGroups(trees, levels, username)
    {
      if username !in levels {
        return [];
      }
      var level := levels[username];
      groups := [];
      if GroupArchFull in trees && level >= Archwizard {
        groups := groups + [GroupArchFull];
      } else if GroupArchJunior in trees && level >= JuniorArch && level != Elder {
        groups := groups + [GroupArchJunior];
      }
    }

    /** GetGroups: the implicit level groups first, then the tree's own groups, each in order. */
    method GetGroups(username: string) returns (groups: seq<string>)
      ensures groups == UserGroups(trees, levels, username)
      ensures groups[..|ImplicitGroups(trees, levels, username)|] == ImplicitGroups(trees, levels, username)
    {
      groups := [];
      var implicitGroups := GetImplicitGroups(username);
      groups := groups + implicitGroups;
      var userGroups := [];
      if username in trees {
        userGroups := trees[username].groups;
      }
      groups := groups + userGroups;
    }

    method GetEffectivePermission(username: string, parts: seq<string>) returns (p: Permission)
      ensures p == EffectivePermission(trees, levels, username, parts)
    {
      var implicit := ImplicitPermission(username, parts);
      if implicit.1 {
        return implicit.0;
      }
      if username in trees {
        var perm := CheckNodePermission(trees[username].root, parts);
        if perm != Revoked {
          return perm;
        }
      }
      var groups := GetGroups(username);
      var i := 0;
      while i < |groups|
        invariant 0 <= i <= |groups|
        invariant FirstGroupGrant(trees, groups, parts) == FirstGroupGrant(trees, groups[i..], parts)
      {
        var group := groups[i];
        assert groups[i..][1..] == groups[i + 1..];
        if group in trees {
          var perm := CheckNodePermission(trees[group].root, parts);
          if perm != Revoked {
            return perm;
          }
        }
        i := i + 1;
      }
      if "*" in trees {
        return CheckNodePermission(trees["*"].root, parts);
      }
      return Revoked;
    }

    method HasPermission(username: string, parts: seq<string>, required: Permission) returns (b: bool)
      ensures b <==> EffectivePermission(trees, levels, username, parts) >= required
    {
      var effective := GetEffectivePermission(username, parts);
      b := effective >= required;
    }
  }
}
