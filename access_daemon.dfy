/**
 * The access daemon itself: the object whose `access_map` the operations
 * read and update. Each method does what the daemon's function does, step
 * by step over the field, and is proved to leave the field and answer what
 * the function of the same name in AccessDatabase gives for the old field.
 * The trees below a principal are values here (see AccessGrant).
 */
module AccessDaemon {
  import opened Wrappers
  import opened Strings
  import opened AccessLevels
  import opened AccessTrees
  import opened AccessPaths
  import opened AccessEvaluation
  import opened AccessGrant
  import opened StringOrder
  import opened AccessDatabase

  class AccessDaemon {
    /** `access_map`: every principal's tree and group list. */
    var accessMap: Db

    /** The daemon with the database `restore_object` loaded. */
    constructor (db: Db)
      ensures accessMap == db
    {
      accessMap := db;
    }

    /** `query_all_groups` (lines 309-334): the static groups, then each group principal in key order. */
    method QueryAllGroups() returns (g: seq<string>)
      ensures g == AllGroups(accessMap)
    {
      g := StaticGroups;
      var u := SortedKeys(accessMap.Keys);
      var i := 0;
      while i < |u|
        invariant 0 <= i <= |u|
        invariant CollectGroups(u[i..], g) == AllGroups(accessMap)
      {
        assert u[i..][1..] == u[i + 1..];
        if u[i] !in FakeUsers && LowerCase(u[i]) != u[i] && u[i] !in g {
          g := g + [u[i]];
        }
        i := i + 1;
      }
    }

    /** Lines 361-368: the player's arch groups that have a tree, named "Arch_<group>". */
    method ArchGroupsOf(arch: Option<seq<string>>) returns (groups: seq<string>)
      ensures groups == ArchGroups(accessMap, arch)
    {
      if arch.None? {
        return [];
      }
      var xs := arch.value;
      groups := [];
      var i := 0;
      while i < |xs|
        invariant 0 <= i <= |xs|
        invariant groups + ArchFrom(accessMap, xs[i..]) == ArchFrom(accessMap, xs)
      {
        assert xs[i..][1..] == xs[i + 1..];
        var tmp := "Arch_" + xs[i];
        if tmp in accessMap {
          assert groups + ArchFrom(accessMap, xs[i..]) == (groups + [tmp]) + ArchFrom(accessMap, xs[i + 1..]);
          groups := groups + [tmp];
        }
        i := i + 1;
      }
    }

    /** The groups of gs that have a tree, in order. */
    method KeepExisting(gs: seq<string>) returns (kept: seq<string>)
      ensures kept == Existing(accessMap, gs)
    {
      kept := [];
      var i := 0;
      while i < |gs|
        invariant 0 <= i <= |gs|
        invariant kept + Existing(accessMap, gs[i..]) == Existing(accessMap, gs)
      {
        assert gs[i..][1..] == gs[i + 1..];
        if gs[i] in accessMap {
          assert kept + Existing(accessMap, gs[i..]) == (kept + [gs[i]]) + Existing(accessMap, gs[i + 1..]);
          kept := kept + [gs[i]];
        }
        i := i + 1;
      }
    }

    /**
     * `query_groups(user)` (lines 349-409) as evidently intended: the user's
     * "?" groups that still have a tree, the group its level gives, its arch
     * groups; the "?" list is cleaned of groups without a tree.
     */
    method QueryGroups(user: string, cd: Chardata) returns (res: seq<string>)
      modifies this
      ensures Groups(res, accessMap) == AccessDatabase.QueryGroups(old(accessMap), user, cd)
    {
      if user in FakeUsers || user != LowerCase(user) {
        return [];
      }
      var groups := ArchGroupsOf(cd.archGroups);
      var before: seq<string> := [];
      if user in accessMap && accessMap[user].groups.Some? {
        before := accessMap[user].groups.value;
      }
      assert before == ExplicitGroups(accessMap, user);
      var kept := KeepExisting(before);
      res := kept;
      var l := cd.level;
      if "Arch_full" in accessMap && l >= Archwizard {
        res := res + ["Arch_full"];
      } else if "Arch_junior" in accessMap && l >= JuniorArch && l != Elder {
        res := res + ["Arch_junior"];
      }
      assert res == kept + LevelGroup(accessMap, l, l);
      res := AppendMissing(res, groups);
      StoreCleaned(user, before, kept);
    }

    /** Lines 397-402: a "?" list that lost groups is written back, deleted when none is left. */
    method StoreCleaned(user: string, before: seq<string>, after: seq<string>)
      requires before == ExplicitGroups(accessMap, user) && |after| <= |before|
      modifies this
      ensures accessMap == WriteBack(old(accessMap), user, before, after)
    {
      if |after| != |before| {
        accessMap := accessMap[user := accessMap[user].(groups := if |after| == 0 then None else Some(after))];
      }
    }

    /** Lines 385-394: each of gs appended to res unless res holds it already. */
    method AppendMissing(res: seq<string>, gs: seq<string>) returns (r: seq<string>)
      ensures r == AddMissing(res, gs)
    {
      r := res;
      var i := 0;
      while i < |gs|
        invariant 0 <= i <= |gs|
        invariant AddMissing(r, gs[i..]) == AddMissing(res, gs)
      {
        assert gs[i..][1..] == gs[i + 1..];
        if gs[i] !in r {
          r := r + [gs[i]];
        }
        i := i + 1;
      }
    }

    /** `get_access_maps(user)` (lines 613-653): the maps to evaluate, after one group query. */
    method GetAccessMaps(user: string, cd: Chardata) returns (maps: seq<(string, Option<Entries>)>)
      modifies this
      ensures var q := AccessDatabase.QueryGroups(old(accessMap), user, cd);
        accessMap == q.db && maps == AccessMaps(q.db, user, q.names)
    {
      var groups := QueryGroups(user, cd);
      var own: seq<(string, Option<Entries>)> := if user in accessMap then [(user, Some(accessMap[user].tree))] else [];
      var ms := GroupMaps(groups);
      maps := own + ms + [("*", TreeOf(accessMap, "*"))];
      assert maps == AccessMaps(accessMap, user, groups);
    }

    /** Lines 626-627 and 639-640: each group with its tree, nil when it has none. */
    method GroupMaps(groups: seq<string>) returns (ms: seq<(string, Option<Entries>)>)
      ensures |ms| == |groups|
      ensures forall k :: 0 <= k < |groups| ==> ms[k] == (groups[k], TreeOf(accessMap, groups[k]))
    {
      ms := [];
      var i := 0;
      while i < |groups|
        invariant 0 <= i <= |groups| && |ms| == i
        invariant forall k :: 0 <= k < i ==> ms[k] == (groups[k], TreeOf(accessMap, groups[k]))
      {
        var tree := if groups[i] in accessMap then Some(accessMap[groups[i]].tree) else None;
        ms := ms + [(groups[i], tree)];
        i := i + 1;
      }
    }

    /**
     * `_get_access(path, user)` on the maps of get_access_maps (lines
     * 675-735); ownCharFile is the character-file test of lines 683-685.
     */
    method GetAccess(path: Option<string>, user: string, cd: Chardata, player: Option<Player>, ownCharFile: bool)
      returns (r: Outcome)
      modifies this
      ensures Checked(r, accessMap) == AccessOf(old(accessMap), path, user, cd, player, ownCharFile)
    {
      if ownCharFile {
        return Granted(Write, "!");
      }
      var maps := GetAccessMaps(user, cd);
      var res := ResolvePath(path, None, None, player, false);
      match res
      case Resolved(parts) =>
        r := AccessEvaluation.GetAccess(parts, user, maps, false);
      case _ =>
        r := Crash;
    }

    /** `valid_access(path, user, acctype)` (lines 756-784): the path when the access reached suffices, else 0. */
    method ValidAccess(path: Option<string>, user: string, acctype: int, cd: Chardata, player: Option<Player>,
                       ownCharFile: bool) returns (v: Verdict)
      modifies this
      ensures var c := AccessOf(old(accessMap), path, user, cd, player, ownCharFile);
        v == ValidAccessOf(c, path, acctype) && accessMap == c.db
    {
      var r := GetAccess(path, user, cd, player, ownCharFile);
      match r
      case Crash =>
        v := Failed;
      case Granted(acc, _) =>
        if acc < acctype {
          v := Refused;
        } else if path.Some? {
          v := Allowed(path.value);
        } else {
          v := Failed;
        }
    }

    /** Lines 821-833 and 848-851: the user's "?" list becomes g; a user left with nothing is removed. */
    method StoreGroups(user: string, g: seq<string>)
      modifies this
      ensures accessMap == SetGroups(old(accessMap), user, g)
    {
      if user !in accessMap {
        accessMap := accessMap[user := Principal(map[], None)];
      }
      accessMap := accessMap[user := accessMap[user].(groups := if |g| == 0 then None else Some(g))];
      if |g| == 0 && |accessMap[user].tree| == 0 {
        accessMap := accessMap - {user};
      }
    }

    /**
     * `grant_access_group(user, group, add)` (lines 787-858) as evidently
     * intended: the one group is removed from or added to the user's own
     * "?" list. ply is the granting player's level, None without one.
     */
    method GrantAccessGroup(user: string, group: string, add: int, ply: Option<int>, cd: Chardata) returns (code: int)
      modifies this
      ensures Change(code, accessMap) == AccessDatabase.GrantAccessGroup(old(accessMap), user, group, add, ply, cd)
    {
      if ply.None? {
        return -1;
      }
      if user in FakeUsers {
        return -6;
      }
      if user != LowerCase(user) {
        return -5;
      }
      var g := QueryGroups(user, cd);
      var own := ExplicitGroups(accessMap, user);
      if group in g {
        if add != 0 {
          return -3;
        }
        if group in StaticGroups && cd.level >= JuniorArch {
          return -7;
        }
        StoreGroups(user, Without(own, group));
        return 1;
      }
      if add == 0 {
        return -4;
      }
      if group !in accessMap {
        return -2;
      }
      if group in StaticGroups && ply.value < Archwizard {
        return -8;
      }
      StoreGroups(user, own + [group]);
      return 2;
    }

    /** Lines 1069-1126: the level the user holds on the path revoked. */
    method RevokeAccess(path: Option<string>, user: string, player: Option<Player>) returns (reply: Reply)
      modifies this
      ensures Grant(reply, accessMap) == RevokeIn(old(accessMap), path, user, player)
    {
      var res := ResolvePath(path, None, None, player, true);
      if !res.Resolved? {
        return Fault;
      }
      if user !in accessMap {
        return Reply(0);
      }
      if |res.parts| == 0 {
        return Fault;
      }
      var r := RevokePath(accessMap[user].tree, res.parts, Extra(accessMap[user]));
      if r.code == 0 {
        reply := Reply(0);
      } else if r.code == 2 {
        accessMap := accessMap - {user};
        reply := Reply(2);
      } else {
        accessMap := accessMap[user := accessMap[user].(tree := r.tree)];
        reply := Reply(1);
      }
    }

    /** Lines 1161-1236: the user's entry created, then the level set on the path. */
    method SetAccessLevel(path: Option<string>, user: string, acctype: int, player: Option<Player>)
      returns (reply: Reply)
      requires acctype != NoAccess
      modifies this
      ensures Grant(reply, accessMap) == SetLevel(old(accessMap), path, user, acctype, player)
    {
      var p := EntryOf(accessMap, user);
      accessMap := accessMap[user := p];
      var res := ResolvePath(path, None, None, player, false);
      if !res.Resolved? || |res.parts| == 0 {
        return Fault;
      }
      accessMap := accessMap[user := p.(tree := GrantTree(p.tree, res.parts, acctype, Extra(p)))];
      reply := Reply(1);
    }

    /**
     * `grant_access(path, user, acctype)` (lines 1026-1237): granter is the
     * euid of the granting player, cd each player's arch groups and level.
     */
    method GrantAccess(path: Option<string>, user: string, acctype: int, granter: Option<string>,
                       player: Option<Player>, cd: string -> Chardata) returns (reply: Reply)
      modifies this
      ensures Grant(reply, accessMap) == AccessDatabase.GrantAccess(old(accessMap), path, user, acctype, granter, player, cd)
    {
      if granter.None? {
        return Reply(-1);
      }
      var mine := GetAccess(path, granter.value, cd(granter.value), player, false);
      if mine.Crash? || !IsAccessType(acctype) {
        return Fault;
      }
      if mine.level !in RequiredToGrant(acctype) && granter.value !in Admins {
        return Reply(-1);
      }
      if acctype == NoAccess {
        reply := RevokeAccess(path, user, player);
        return;
      }
      var theirs := GetAccess(path, user, cd(user), player, false);
      if theirs.Crash? {
        return Fault;
      }
      if theirs.level == acctype {
        if user == LowerCase(user) {
          return Reply(0);
        }
        var holds := GroupHolds(accessMap, path, user, acctype, player);
        if holds.None? {
          return Fault;
        }
        if holds.value {
          return Reply(0);
        }
      }
      reply := SetAccessLevel(path, user, acctype, player);
    }
  }
}
