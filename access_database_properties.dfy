/**
 * Properties of the database operations: which groups a principal is in,
 * that the maps handed to `_get_access` all have trees when the group
 * query cleans up, what group membership changes do, and that a level
 * `grant_access` sets is the level `get_access` then reports. The defects
 * of `query_groups` and `grant_access_group` as written are shown on small
 * databases next to the intended behaviour.
 */
module AccessDatabaseProperties {
  import opened Wrappers
  import opened Strings
  import opened AccessLevels
  import opened AccessTrees
  import opened AccessPaths
  import opened AccessEvaluation
  import opened AccessEvaluationProperties
  import opened AccessGrant
  import opened AccessGrantProperties
  import opened AccessDatabase

  /** Only the group lists change: the same principals, with the same trees. */
  predicate SameTrees(db: Db, db': Db)
  {
    db'.Keys == db.Keys && forall k :: k in db ==> db'[k].tree == db[k].tree
  }

  // ---------------------------------------------------------------------------
  // query_groups

  /** Fake users and groups are in no group, and asking changes nothing. */
  lemma NoGroupsForFakesAndGroups(db: Db, user: string, cd: Chardata)
    requires user in FakeUsers || IsGroupName(user)
    ensures QueryGroups(db, user, cd) == Groups([], db)
    ensures QueryGroupsAsWritten(db, user, cd) == Groups([], db)
  {
  }

  /**
   * The groups of a user: the groups of its "?" list that have a tree, in
   * their order and first, then the level group and the arch groups; every
   * one of them has a tree. The "?" list loses exactly the groups without
   * a tree, and nothing else in the database changes.
   */
  lemma QueryGroupsSpec(db: Db, user: string, cd: Chardata)
    requires !HasNoGroups(user)
    ensures var q := QueryGroups(db, user, cd);
      && Existing(db, ExplicitGroups(db, user)) <= q.names
      && (forall g :: g in q.names <==>
            (g in ExplicitGroups(db, user) && g in db) || g in LevelGroup(db, cd.level, cd.level)
            || g in ArchGroups(db, cd.archGroups))
      && (forall g :: g in q.names ==> g in q.db)
      && ExplicitGroups(q.db, user) == Existing(db, ExplicitGroups(db, user))
      && SameTrees(db, q.db)
  {
    var before := ExplicitGroups(db, user);
    var kept := Existing(db, before);
    var res := kept + LevelGroup(db, cd.level, cd.level);
    assert kept <= res;
    if |kept| == |before| {
      ExistingAll(db, before);
    }
  }

  /** A filter that keeps as many elements as it was given keeps them all. */
  lemma {:induction false} ExistingAll(db: Db, gs: seq<string>)
    requires |Existing(db, gs)| == |gs|
    ensures Existing(db, gs) == gs
  {
    if |gs| > 0 && gs[0] in db {
      ExistingAll(db, gs[1..]);
    }
  }

  /**
   * Arch_full is given from level ARCHWIZARD when it has a tree, and
   * otherwise Arch_junior from level JUNIOR_ARCH (except ELDER) when that
   * has a tree.
   */
  lemma LevelGroups(db: Db, user: string, cd: Chardata)
    requires !HasNoGroups(user)
    ensures "Arch_full" in db && cd.level >= Archwizard ==> "Arch_full" in QueryGroups(db, user, cd).names
    ensures (!("Arch_full" in db && cd.level >= Archwizard) && "Arch_junior" in db && cd.level >= JuniorArch
             && cd.level != Elder) ==> "Arch_junior" in QueryGroups(db, user, cd).names
  {
    QueryGroupsSpec(db, user, cd);
  }

  /** The clean-up loop as written walks arch groups, which all have trees: it never drops anything. */
  lemma {:induction false} ScanAsWrittenDropsNothing(db: Db, res: seq<string>, after: seq<string>, gs: seq<string>)
    requires forall g :: g in gs ==> g in db
    ensures ScanAsWritten(db, res, after, gs).1 == after
    decreases |gs|
  {
    if |gs| > 0 {
      if gs[0] in res {
        ScanAsWrittenDropsNothing(db, res, after, gs[1..]);
      } else {
        ScanAsWrittenDropsNothing(db, res + [gs[0]], after, gs[1..]);
      }
    }
  }

  /** query_groups as written never writes the database: a stale "?" entry is never cleaned up. */
  lemma AsWrittenNeverCleansUp(db: Db, user: string, cd: Chardata)
    ensures QueryGroupsAsWritten(db, user, cd).db == db
  {
    if !HasNoGroups(user) {
      var before := ExplicitGroups(db, user);
      var l := if "Arch_full" in db then cd.level else 0;
      ScanAsWrittenDropsNothing(db, before + LevelGroup(db, cd.level, l), before, ArchGroups(db, cd.archGroups));
    }
  }

  lemma BobIsUser()
    ensures !HasNoGroups("bob")
  {
    LowerCaseFixed("bob");
  }

  /** A database with only a default tree and an Arch_junior tree. */
  function JuniorOnly(): Db
  {
    map["*" := Principal(map["*" := Leaf(Read)], None), "Arch_junior" := Principal(map["d" := Leaf(Write)], None)]
  }

  /** Without an Arch_full tree, a level 40 arch is denied Arch_junior as written, and given it as intended. */
  lemma JuniorNeedsFull()
    ensures QueryGroupsAsWritten(JuniorOnly(), "bob", Chardata(None, JuniorArch)).names == []
    ensures QueryGroups(JuniorOnly(), "bob", Chardata(None, JuniorArch)).names == ["Arch_junior"]
  {
    BobIsUser();
  }

  /** A user whose "?" list names a group whose tree was revoked. */
  function StaleGroup(): Db
  {
    map["*" := Principal(map["*" := Leaf(Read)], None), "bob" := Principal(map[], Some(["Gone"]))]
  }

  /**
   * As written the stale group is still answered, and evaluating the maps
   * then indexes its missing tree, a runtime error on every path; as
   * intended the group is dropped, from the answer and from the "?" list.
   */
  lemma StaleGroupCrashes(parts: seq<string>)
    ensures QueryGroupsAsWritten(StaleGroup(), "bob", Chardata(None, 20)) == Groups(["Gone"], StaleGroup())
    ensures GetAccessOf(parts, "bob", AccessMaps(StaleGroup(), "bob", ["Gone"]), false) == Crash
    ensures QueryGroups(StaleGroup(), "bob", Chardata(None, 20)) ==
      Groups([], map["*" := Principal(map["*" := Leaf(Read)], None), "bob" := Principal(map[], None)])
  {
    BobIsUser();
    AsWrittenNeverCleansUp(StaleGroup(), "bob", Chardata(None, 20));
    var maps := AccessMaps(StaleGroup(), "bob", ["Gone"]);
    assert maps[1] == ("Gone", None);
    MissingTreeCrashes(parts, "bob", maps, 1);
  }

  // ---------------------------------------------------------------------------
  // get_access_maps and get_access

  /** The maps: the principal's own tree first when it has one, its groups in order, the default tree last. */
  lemma AccessMapsOrder(db: Db, user: string, groups: seq<string>)
    ensures var maps := AccessMaps(db, user, groups);
      var own := if user in db then 1 else 0;
      && |maps| == own + |groups| + 1
      && (user in db ==> maps[0] == (user, Some(db[user].tree)))
      && (forall i :: 0 <= i < |groups| ==> maps[own + i] == (groups[i], TreeOf(db, groups[i])))
      && maps[|maps| - 1] == ("*", TreeOf(db, "*"))
      && (AllPresent(maps) <==> "*" in db && forall g :: g in groups ==> g in db)
  {
    var maps := AccessMaps(db, user, groups);
    var own := if user in db then 1 else 0;
    if "*" in db && forall g :: g in groups ==> g in db {
      forall k | 0 <= k < |maps| ensures maps[k].1.Some? {
        if own <= k < own + |groups| {
          assert groups[k - own] in groups;
        }
      }
    }
    if AllPresent(maps) {
      forall g | g in groups ensures g in db {
        var i :| 0 <= i < |groups| && groups[i] == g;
        assert maps[own + i].1.Some?;
      }
    }
  }

  /** With the cleaning query, every map handed to `_get_access` has a tree as long as the default tree exists. */
  lemma MapsAllPresent(db: Db, user: string, cd: Chardata)
    requires "*" in db
    ensures var q := QueryGroups(db, user, cd);
      AllPresent(AccessMaps(q.db, user, q.names))
  {
    var q := QueryGroups(db, user, cd);
    if !HasNoGroups(user) {
      QueryGroupsSpec(db, user, cd);
    }
    AccessMapsOrder(q.db, user, q.names);
  }

  /** An access check changes only group lists. */
  lemma AccessOfKeepsTrees(db: Db, path: Option<string>, user: string, cd: Chardata, player: Option<Player>,
                           ownCharFile: bool)
    ensures SameTrees(db, AccessOf(db, path, user, cd, player, ownCharFile).db)
  {
    if !ownCharFile && !HasNoGroups(user) {
      QueryGroupsSpec(db, user, cd);
    }
  }

  /** `valid_access` gives the path exactly when the level reached is at least the one asked for. */
  lemma ValidAccessSpec(c: Checked, path: string, acctype: int)
    ensures ValidAccessOf(c, Some(path), acctype) == Allowed(path) <==> c.outcome.Granted? && c.outcome.level >= acctype
    ensures ValidAccessOf(c, Some(path), acctype) == Refused <==> c.outcome.Granted? && c.outcome.level < acctype
    ensures ValidAccessOf(c, Some(path), acctype) == Failed <==> c.outcome.Crash?
  {
  }

  // ---------------------------------------------------------------------------
  // grant_access_group

  /** What the checks of grant_access_group leave: a refusal leaves the queried database, 1 and 2 write the lists. */
  lemma GroupChangeSpec(user: string, group: string, add: int, ply: int, cd: Chardata, q: Groups,
                        leave: seq<string>, join: seq<string>)
    ensures var c := GroupChange(user, group, add, ply, cd, q, leave, join);
      && (c.code < 0 || c.code == 1 || c.code == 2)
      && (c.code < 0 ==> c.db == q.db)
      && (c.code == 1 ==> group in q.names && add == 0 && c.db == SetGroups(q.db, user, leave))
      && (c.code == 2 ==> group !in q.names && add != 0 && group in q.db && c.db == SetGroups(q.db, user, join))
  {
  }

  /** The list written is the principal's "?" list afterwards (none when empty); other principals keep theirs. */
  lemma SetGroupsSpec(db: Db, user: string, g: seq<string>)
    ensures ExplicitGroups(SetGroups(db, user, g), user) == g
    ensures forall k :: k != user ==> (k in SetGroups(db, user, g) <==> k in db)
    ensures forall k :: k != user && k in db ==> SetGroups(db, user, g)[k] == db[k]
  {
  }

  /** grant_access_group, for a user it does not refuse at once: the checks of GroupChange after one group query. */
  lemma GroupChangeOf(db: Db, user: string, group: string, add: int, ply: Option<int>, cd: Chardata)
    returns (q: Groups, own: seq<string>)
    requires ply.Some? && user !in FakeUsers && !IsGroupName(user)
    ensures q == QueryGroups(db, user, cd) && own == ExplicitGroups(q.db, user)
    ensures GrantAccessGroup(db, user, group, add, ply, cd) ==
      GroupChange(user, group, add, ply.value, cd, q, Without(own, group), own + [group])
    ensures GrantAccessGroupAsWritten(db, user, group, add, ply, cd) ==
      GroupChange(user, group, add, ply.value, cd, q, Without(q.names, group), q.names + [group])
  {
    q := QueryGroups(db, user, cd);
    own := ExplicitGroups(q.db, user);
  }

  /** A user who joins a group is in it from then on, whatever its level, through its "?" list. */
  lemma JoinedGroupSticks(db: Db, user: string, group: string, add: int, ply: Option<int>, cd: Chardata, later: Chardata)
    requires GrantAccessGroup(db, user, group, add, ply, cd).code == 2
    ensures var c := GrantAccessGroup(db, user, group, add, ply, cd);
      && ExplicitGroups(c.db, user) == ExplicitGroups(QueryGroups(db, user, cd).db, user) + [group]
      && group in QueryGroups(c.db, user, later).names
  {
    var q, own := GroupChangeOf(db, user, group, add, ply, cd);
    GroupChangeSpec(user, group, add, ply.value, cd, q, Without(own, group), own + [group]);
    var c := GrantAccessGroup(db, user, group, add, ply, cd);
    SetGroupsSpec(q.db, user, own + [group]);
    assert group in ExplicitGroups(c.db, user);
    assert group in c.db by {
      if group != user {
        assert group in q.db;
      }
    }
    QueryGroupsSpec(c.db, user, later);
  }

  /** A user who leaves a group no longer lists it. */
  lemma LeftGroupGone(db: Db, user: string, group: string, add: int, ply: Option<int>, cd: Chardata)
    requires GrantAccessGroup(db, user, group, add, ply, cd).code == 1
    ensures group !in ExplicitGroups(GrantAccessGroup(db, user, group, add, ply, cd).db, user)
  {
    var q, own := GroupChangeOf(db, user, group, add, ply, cd);
    GroupChangeSpec(user, group, add, ply.value, cd, q, Without(own, group), own + [group]);
    SetGroupsSpec(q.db, user, Without(own, group));
  }

  /** A refused membership change (any negative code) changes no tree. */
  lemma RefusedGroupChange(db: Db, user: string, group: string, add: int, ply: Option<int>, cd: Chardata)
    requires GrantAccessGroup(db, user, group, add, ply, cd).code < 0
    ensures SameTrees(db, GrantAccessGroup(db, user, group, add, ply, cd).db)
  {
    if ply.Some? && user !in FakeUsers && !IsGroupName(user) {
      var q, own := GroupChangeOf(db, user, group, add, ply, cd);
      GroupChangeSpec(user, group, add, ply.value, cd, q, Without(own, group), own + [group]);
      QueryGroupsSpec(db, user, cd);
    }
  }

  /** Two groups and a default tree. */
  function TwoGroups(): Db
  {
    map["*" := Principal(map["*" := Leaf(Read)], None),
        "Arch_full" := Principal(map["*" := Leaf(GrantWrite)], None),
        "Foo" := Principal(map["foo" := Leaf(Write)], None)]
  }

  lemma FooIsGroup()
    ensures IsGroupName("Foo") && "Foo" !in StaticGroups
  {
    assert LowerCase("Foo")[0] == 'f';
  }

  /**
   * An archwizard joins the group Foo. As written, the Arch_full it has by
   * level is stored in its "?" list too, so once its level drops it is still
   * in Arch_full.
   */
  lemma LevelGroupStored()
    ensures var c := GrantAccessGroupAsWritten(TwoGroups(), "bob", "Foo", 1, Some(Archwizard), Chardata(None, Archwizard));
      && c.code == 2 && ExplicitGroups(c.db, "bob") == ["Arch_full", "Foo"]
      && "Arch_full" in QueryGroups(c.db, "bob", Chardata(None, 20)).names
  {
    var db := JoinFooAsWritten();
    SetGroupsSpec(TwoGroups(), "bob", ["Arch_full", "Foo"]);
    assert "Arch_full" in db;
    QueryGroupsSpec(db, "bob", Chardata(None, 20));
  }

  /** As intended only Foo is stored, and a lower level leaves the user in Foo alone. */
  lemma OnlyNamedGroupStored()
    ensures var c := GrantAccessGroup(TwoGroups(), "bob", "Foo", 1, Some(Archwizard), Chardata(None, Archwizard));
      && c.code == 2 && ExplicitGroups(c.db, "bob") == ["Foo"]
      && QueryGroups(c.db, "bob", Chardata(None, 20)).names == ["Foo"]
  {
    var db := JoinFooIntended();
    assert db == TwoGroups()["bob" := Principal(map[], Some(["Foo"]))];
    BobIsUser();
    assert Existing(db, ["Foo"]) == ["Foo"];
    assert LevelGroup(db, 20, 20) == [];
  }

  /** The join as written stores the whole answer of the query with Foo. */
  lemma JoinFooAsWritten() returns (db: Db)
    ensures db == SetGroups(TwoGroups(), "bob", ["Arch_full", "Foo"])
    ensures GrantAccessGroupAsWritten(TwoGroups(), "bob", "Foo", 1, Some(Archwizard), Chardata(None, Archwizard))
      == Change(2, db)
  {
    var q, own := JoinFoo();
    FooIsGroup();
    assert "Foo" !in q.names && "Foo" in q.db;
    assert q.names + ["Foo"] == ["Arch_full", "Foo"];
    db := SetGroups(TwoGroups(), "bob", ["Arch_full", "Foo"]);
  }

  /** The intended join stores Foo alone. */
  lemma JoinFooIntended() returns (db: Db)
    ensures db == SetGroups(TwoGroups(), "bob", ["Foo"])
    ensures GrantAccessGroup(TwoGroups(), "bob", "Foo", 1, Some(Archwizard), Chardata(None, Archwizard))
      == Change(2, db)
  {
    var q, own := JoinFoo();
    FooIsGroup();
    assert "Foo" !in q.names && "Foo" in q.db;
    assert own + ["Foo"] == ["Foo"];
    db := SetGroups(TwoGroups(), "bob", ["Foo"]);
  }

  /** The archwizard bob, in no group yet, asks to join Foo. */
  lemma JoinFoo() returns (q: Groups, own: seq<string>)
    ensures q == QueryGroups(TwoGroups(), "bob", Chardata(None, Archwizard)) && own == ExplicitGroups(q.db, "bob")
    ensures q == Groups(["Arch_full"], TwoGroups()) && own == []
    ensures GrantAccessGroup(TwoGroups(), "bob", "Foo", 1, Some(Archwizard), Chardata(None, Archwizard)) ==
      GroupChange("bob", "Foo", 1, Archwizard, Chardata(None, Archwizard), q, Without(own, "Foo"), own + ["Foo"])
    ensures GrantAccessGroupAsWritten(TwoGroups(), "bob", "Foo", 1, Some(Archwizard), Chardata(None, Archwizard)) ==
      GroupChange("bob", "Foo", 1, Archwizard, Chardata(None, Archwizard), q, Without(q.names, "Foo"), q.names + ["Foo"])
  {
    BobIsUser();
    FooIsGroup();
    q, own := GroupChangeOf(TwoGroups(), "bob", "Foo", 1, Some(Archwizard), Chardata(None, Archwizard));
  }

  // ---------------------------------------------------------------------------
  // grant_access

  /** Without a granting player nothing happens; an acctype outside the seven is a runtime error. */
  lemma GrantNeedsPlayerAndType(db: Db, path: Option<string>, user: string, acctype: int, granter: Option<string>,
                                player: Option<Player>, cd: string -> Chardata)
    ensures granter.None? ==> GrantAccess(db, path, user, acctype, granter, player, cd) == Grant(Reply(-1), db)
    ensures granter.Some? && !IsAccessType(acctype) ==>
      GrantAccess(db, path, user, acctype, granter, player, cd)
        == Grant(Fault, AccessOf(db, path, granter.value, cd(granter.value), player, false).db)
  {
  }

  /** query_groups writes the "?" list of the principal asked about and nothing else. */
  lemma QueryGroupsFrame(db: Db, user: string, cd: Chardata, n: string)
    requires n != user
    ensures var q := QueryGroups(db, user, cd).db;
      q.Keys == db.Keys && (n in db ==> q[n] == db[n])
  {
  }

  /** An access check writes only the "?" list of the principal asked about. */
  lemma AccessOfFrame(db: Db, path: Option<string>, user: string, cd: Chardata, player: Option<Player>, n: string)
    requires n != user
    ensures var c := AccessOf(db, path, user, cd, player, false).db;
      c.Keys == db.Keys && (n in db ==> c[n] == db[n])
  {
    QueryGroupsFrame(db, user, cd, n);
  }

  /**
   * grant_access changes no principal but the grantee and the granter, and
   * of the granter at most its "?" list, which the access check rewrites.
   */
  lemma GrantAccessFrame(db: Db, path: Option<string>, user: string, acctype: int, granter: Option<string>,
                         player: Option<Player>, cd: string -> Chardata, n: string)
    requires n != user
    ensures var g := GrantAccess(db, path, user, acctype, granter, player, cd).db;
      && (n in g <==> n in db)
      && (n in db ==> g[n].tree == db[n].tree)
      && (granter != Some(n) && n in db ==> g[n] == db[n])
  {
    if granter.Some? {
      var mine := AccessOf(db, path, granter.value, cd(granter.value), player, false);
      AccessOfKeepsTrees(db, path, granter.value, cd(granter.value), player, false);
      if granter.value != n {
        AccessOfFrame(db, path, granter.value, cd(granter.value), player, n);
      }
      var mid := GrantSteps(db, path, user, acctype, granter.value, player, cd);
      if mid != mine.db {
        AccessOfFrame(mine.db, path, user, cd(user), player, n);
      }
      GrantAfterCheck(mid, path, user, acctype, player, cd, n);
    }
  }

  /** grant_access runs one or two access checks, then possibly a revoke or a SetLevel on what they leave. */
  lemma GrantSteps(db: Db, path: Option<string>, user: string, acctype: int, granter: string,
                   player: Option<Player>, cd: string -> Chardata) returns (mid: Db)
    ensures var mine := AccessOf(db, path, granter, cd(granter), player, false).db;
      mid == mine || mid == AccessOf(mine, path, user, cd(user), player, false).db
    ensures var g := GrantAccess(db, path, user, acctype, Some(granter), player, cd).db;
      || g == mid
      || (acctype != NoAccess && g == SetLevel(mid, path, user, acctype, player).db)
      || g == RevokeIn(mid, path, user, player).db
  {
    var mine := AccessOf(db, path, granter, cd(granter), player, false);
    mid := mine.db;
    match mine.outcome
    case Crash =>
    case Granted(level, _) =>
      if IsAccessType(acctype) && (level in RequiredToGrant(acctype) || granter in Admins) && acctype != NoAccess {
        mid := AccessOf(mine.db, path, user, cd(user), player, false).db;
      }
  }

  /** What grant_access does after the granter's access check touches only the grantee. */
  lemma GrantAfterCheck(db: Db, path: Option<string>, user: string, acctype: int, player: Option<Player>,
                        cd: string -> Chardata, n: string)
    requires n != user
    ensures acctype != NoAccess ==> var g := SetLevel(db, path, user, acctype, player).db;
      (n in g <==> n in db) && (n in db ==> g[n] == db[n])
    ensures var g := RevokeIn(db, path, user, player).db;
      (n in g <==> n in db) && (n in db ==> g[n] == db[n])
  {
  }

  /** A granter who is no admin and lacks every level that may grant acctype changes no tree. */
  lemma GrantRefused(db: Db, path: Option<string>, user: string, acctype: int, granter: string,
                     player: Option<Player>, cd: string -> Chardata, level: int, source: string)
    requires IsAccessType(acctype) && granter !in Admins
    requires AccessOf(db, path, granter, cd(granter), player, false).outcome == Granted(level, source)
    requires level !in RequiredToGrant(acctype)
    ensures GrantAccess(db, path, user, acctype, Some(granter), player, cd).reply == Reply(-1)
    ensures SameTrees(db, GrantAccess(db, path, user, acctype, Some(granter), player, cd).db)
  {
    AccessOfKeepsTrees(db, path, granter, cd(granter), player, false);
  }

  /**
   * Once grant_access has set a level on a path (other than a `*` entry),
   * get_access reports that level for the path, from the principal's own map.
   */
  lemma GrantThenAccess(db: Db, path: Option<string>, user: string, acctype: int, granter: Option<string>,
                        player: Option<Player>, cd: string -> Chardata, parts: seq<string>)
    requires acctype != NoAccess && "*" in db
    requires Resolve(path, None, None, player, false) == Resolved(parts) && |parts| > 0 && parts[|parts| - 1] != "*"
    requires GrantAccess(db, path, user, acctype, granter, player, cd).reply == Reply(1)
    ensures AccessOf(GrantAccess(db, path, user, acctype, granter, player, cd).db, path, user, cd(user), player, false).outcome
            == Granted(acctype, user)
  {
    var g := GrantAccess(db, path, user, acctype, granter, player, cd);
    var db2 := GrantedDb(db, path, user, acctype, granter, player, cd);
    var p := EntryOf(db2, user);
    var tree := GrantTree(p.tree, parts, acctype, Extra(p));
    assert g.db == db2[user := p][user := p.(tree := tree)];
    GrantedLevel(p.tree, parts, acctype, Extra(p));
    var q := QueryGroups(g.db, user, cd(user));
    if !HasNoGroups(user) {
      QueryGroupsSpec(g.db, user, cd(user));
    }
    var maps := AccessMaps(q.db, user, q.names);
    MapsAllPresent(g.db, user, cd(user));
    AccessMapsOrder(q.db, user, q.names);
    OwnTreeOverridesRules(parts, user, maps);
  }

  /**
   * The database a successful grant starts from: the one the two access
   * checks leave, which still has the default tree.
   */
  lemma GrantedDb(db: Db, path: Option<string>, user: string, acctype: int, granter: Option<string>,
                  player: Option<Player>, cd: string -> Chardata) returns (db2: Db)
    requires acctype != NoAccess && "*" in db
    requires GrantAccess(db, path, user, acctype, granter, player, cd).reply == Reply(1)
    ensures "*" in db2
    ensures GrantAccess(db, path, user, acctype, granter, player, cd) == SetLevel(db2, path, user, acctype, player)
  {
    var mine := AccessOf(db, path, granter.value, cd(granter.value), player, false);
    AccessOfKeepsTrees(db, path, granter.value, cd(granter.value), player, false);
    var theirs := AccessOf(mine.db, path, user, cd(user), player, false);
    AccessOfKeepsTrees(mine.db, path, user, cd(user), player, false);
    db2 := theirs.db;
  }

  /** A revoke that answers 2 removes the principal; one that answers 0 changes no tree. */
  lemma RevokeReplies(db: Db, path: Option<string>, user: string, player: Option<Player>)
    ensures RevokeIn(db, path, user, player).reply == Reply(2) ==> user !in RevokeIn(db, path, user, player).db
    ensures RevokeIn(db, path, user, player).reply == Reply(0) ==> RevokeIn(db, path, user, player).db == db
    ensures RevokeIn(db, path, user, player).reply == Reply(1) ==> user in RevokeIn(db, path, user, player).db
  {
  }
}
