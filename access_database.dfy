/**
 * The daemon's database `access_map` and its operations as functions of the
 * database: the group lists (`query_all_groups`, `query_groups`), the maps
 * a principal's access is evaluated against (`get_access_maps`), the access
 * checks (`get_access`, `valid_access`), group membership
 * (`grant_access_group`) and `grant_access`. Operations that write the
 * database return the new one; the class in module AccessDaemon runs them.
 *
 * What the daemon asks of the rest of the mudlib is a parameter: the
 * granting player (`this_player(1)`), the current player for path
 * resolution (`this_player()`), and each player's arch groups and level
 * (`D_ARCHGROUP->query_data`, `lookup_chardata`).
 */
module AccessDatabase {
  import opened Wrappers
  import opened Strings
  import opened AccessLevels
  import opened AccessTrees
  import opened AccessPaths
  import opened AccessEvaluation
  import opened AccessGrant
  import opened StringOrder

  /** One entry of access_map: the principal's tree, and its "?" group list when it has one. */
  datatype Principal = Principal(tree: Entries, groups: Option<seq<string>>)

  type Db = map<string, Principal>

  /** A player as the mudlib reports it: its arch groups (None when the reply is not an array) and its level. */
  datatype Chardata = Chardata(archGroups: Option<seq<string>>, level: int)

  /** s_grps, admins and fusers as `create` sets them (lines 193-200). */
  const StaticGroups: seq<string> := ["Arch_full", "Arch_docs", "Arch_qc", "Arch_junior", "Arch_law", "Arch_web"]
  const Admins: seq<string> := ["moreldir", "kralk", "cryzeck"]
  const FakeUsers: seq<string> := ["*", "backbone", "root"]

  /** Group names have capital letters; user names are their own lower case. */
  predicate IsGroupName(name: string)
  {
    LowerCase(name) != name
  }

  /** The keys of a principal's mapping besides its tree: the "?" entry, if any. */
  function Extra(p: Principal): nat
  {
    if p.groups.Some? then 1 else 0
  }

  predicate NoDuplicates(s: seq<string>)
  {
    forall i, j :: 0 <= i < j < |s| ==> s[i] != s[j]
  }

  // ---------------------------------------------------------------------------
  // query_all_groups (lines 309-334)

  /** The loop over the sorted keys ks: a key is added unless it is a fake user, a user name, or already listed. */
  function CollectGroups(ks: seq<string>, g: seq<string>): seq<string>
    decreases |ks|
  {
    if |ks| == 0 then g
    else CollectGroups(ks[1..], if ks[0] in FakeUsers || !IsGroupName(ks[0]) || ks[0] in g then g else g + [ks[0]])
  }

  function AllGroups(db: Db): seq<string>
  {
    CollectGroups(SortedKeys(db.Keys), StaticGroups)
  }

  lemma {:induction false} CollectGroupsSpec(ks: seq<string>, g: seq<string>)
    ensures var r := CollectGroups(ks, g);
      && g <= r
      && (forall x :: x in r <==> x in g || (x in ks && x !in FakeUsers && IsGroupName(x)))
      && (NoDuplicates(g) ==> NoDuplicates(r))
    decreases |ks|
  {
    if |ks| > 0 {
      var g' := if ks[0] in FakeUsers || !IsGroupName(ks[0]) || ks[0] in g then g else g + [ks[0]];
      CollectGroupsSpec(ks[1..], g');
      forall x ensures x in ks <==> x == ks[0] || x in ks[1..] {
        assert ks == [ks[0]] + ks[1..];
      }
    }
  }

  /** All groups: the static groups first, then every other group principal, each once. */
  lemma AllGroupsSpec(db: Db)
    ensures var r := AllGroups(db);
      && StaticGroups <= r
      && (forall x :: x in r <==> x in StaticGroups || (x in db && x !in FakeUsers && IsGroupName(x)))
      && NoDuplicates(r)
  {
    var ks := SortedKeys(db.Keys);
    StaticGroupsDistinct();
    CollectGroupsSpec(ks, StaticGroups);
    var r := CollectGroups(ks, StaticGroups);
    forall x ensures x in r <==> x in StaticGroups || (x in db && x !in FakeUsers && IsGroupName(x)) {
      assert x in ks <==> x in db;
    }
  }

  lemma StaticGroupsDistinct()
    ensures NoDuplicates(StaticGroups)
  {
    forall i, j | 0 <= i < j < |StaticGroups| ensures StaticGroups[i] != StaticGroups[j] {
      assert StaticGroups[i][5..] != StaticGroups[j][5..];
    }
  }

  // ---------------------------------------------------------------------------
  // query_groups (lines 349-409)

  /** The player's arch groups that have a tree, as "Arch_<name>" (lines 361-368). */
  function ArchFrom(db: Db, xs: seq<string>): (r: seq<string>)
    ensures forall g :: g in r ==> g in db
    ensures |r| <= |xs|
  {
    if |xs| == 0 then []
    else (if "Arch_" + xs[0] in db then ["Arch_" + xs[0]] else []) + ArchFrom(db, xs[1..])
  }

  function ArchGroups(db: Db, arch: Option<seq<string>>): (r: seq<string>)
    ensures forall g :: g in r ==> g in db
  {
    if arch.Some? then ArchFrom(db, arch.value) else []
  }

  /** The principal's "?" list, empty when it has none (lines 370-371). */
  function ExplicitGroups(db: Db, user: string): (r: seq<string>)
    ensures |r| > 0 ==> user in db
  {
    if user in db && db[user].groups.Some? then db[user].groups.value else []
  }

  /**
   * The group given by level (lines 377-383): Arch_full from fullLevel, else
   * Arch_junior from juniorLevel, when that group has a tree.
   */
  function LevelGroup(db: Db, fullLevel: int, juniorLevel: int): seq<string>
  {
    if "Arch_full" in db && fullLevel >= Archwizard then ["Arch_full"]
    else if "Arch_junior" in db && juniorLevel >= JuniorArch && juniorLevel != Elder then ["Arch_junior"]
    else []
  }

  /** The groups of gs that have a tree, in order. */
  function Existing(db: Db, gs: seq<string>): (r: seq<string>)
    ensures |r| <= |gs|
    ensures forall g :: g in r <==> g in gs && g in db
  {
    if |gs| == 0 then []
    else (if gs[0] in db then [gs[0]] else []) + Existing(db, gs[1..])
  }

  /** res with each of gs appended that it does not hold yet. */
  function AddMissing(res: seq<string>, gs: seq<string>): (r: seq<string>)
    ensures res <= r
    ensures forall g :: g in r <==> g in res || g in gs
    decreases |gs|
  {
    if |gs| == 0 then res else AddMissing(if gs[0] in res then res else res + [gs[0]], gs[1..])
  }

  /** The group list and the database after a query. */
  datatype Groups = Groups(names: seq<string>, db: Db)

  /** Lines 397-402: the "?" list before is replaced by after when they differ, and deleted when after is empty. */
  function WriteBack(db: Db, user: string, before: seq<string>, after: seq<string>): Db
    requires before == ExplicitGroups(db, user) && |after| <= |before|
  {
    if |after| != |before| then db[user := db[user].(groups := if |after| == 0 then None else Some(after))]
    else db
  }

  /**
   * The loop of lines 385-394 as written: it walks the arch groups, and
   * drops from the "?" list an arch group that has no tree.
   */
  function ScanAsWritten(db: Db, res: seq<string>, after: seq<string>, gs: seq<string>): (r: (seq<string>, seq<string>))
    ensures |r.1| <= |after|
    decreases |gs|
  {
    if |gs| == 0 then (res, after)
    else if gs[0] in res then ScanAsWritten(db, res, after, gs[1..])
    else if gs[0] !in db then ScanAsWritten(db, res, Without(after, gs[0]), gs[1..])
    else ScanAsWritten(db, res + [gs[0]], after, gs[1..])
  }

  /** `s -= ({ x })`: every copy of x removed. */
  function Without(s: seq<string>, x: string): (r: seq<string>)
    ensures |r| <= |s|
    ensures forall g :: g in r <==> g in s && g != x
  {
    if |s| == 0 then [] else (if s[0] == x then [] else [s[0]]) + Without(s[1..], x)
  }

  /** Whether query_groups answers at once with no groups: fake users and groups (lines 354-359). */
  predicate HasNoGroups(user: string)
  {
    user in FakeUsers || IsGroupName(user)
  }

  /**
   * `query_groups` as written. The level is read only inside the test for
   * Arch_full (line 380), so without an Arch_full tree it stays 0 and
   * Arch_junior is never given; and the clean-up walks the arch groups, which
   * all have trees, instead of the "?" list.
   */
  function QueryGroupsAsWritten(db: Db, user: string, cd: Chardata): Groups
  {
    if HasNoGroups(user) then Groups([], db)
    else
      var groups := ArchGroups(db, cd.archGroups);
      var before := ExplicitGroups(db, user);
      var l := if "Arch_full" in db then cd.level else 0;
      var (res, after) := ScanAsWritten(db, before + LevelGroup(db, cd.level, l), before, groups);
      Groups(res, WriteBack(db, user, before, after))
  }

  /**
   * `query_groups` as evidently intended: the level decides both level
   * groups, and groups of the "?" list that no longer have a tree are
   * dropped from the answer and from the list.
   */
  function QueryGroups(db: Db, user: string, cd: Chardata): Groups
  {
    if HasNoGroups(user) then Groups([], db)
    else
      var before := ExplicitGroups(db, user);
      var kept := Existing(db, before);
      Groups(AddMissing(kept + LevelGroup(db, cd.level, cd.level), ArchGroups(db, cd.archGroups)),
             WriteBack(db, user, before, kept))
  }

  // ---------------------------------------------------------------------------
  // get_access_maps (lines 613-653)

  function TreeOf(db: Db, name: string): Option<Entries>
  {
    if name in db then Some(db[name].tree) else None
  }

  /** The maps, highest priority first: the principal's own tree when it has one, its groups, and the default tree `*`. */
  function AccessMaps(db: Db, user: string, groups: seq<string>): seq<(string, Option<Entries>)>
  {
    var own := if user in db then [(user, Some(db[user].tree))] else [];
    own + seq(|groups|, i requires 0 <= i < |groups| => (groups[i], TreeOf(db, groups[i]))) + [("*", TreeOf(db, "*"))]
  }

  // ---------------------------------------------------------------------------
  // get_access and valid_access (lines 675-784)

  /** An access check's outcome and the database, which the group query may have cleaned up. */
  datatype Checked = Checked(outcome: Outcome, db: Db)

  /**
   * `get_access(path, user)`: `_get_access` on the maps get_access_maps
   * collects. ownCharFile is the test at lines 683-685. A path that does not
   * resolve (nil, empty, or "~" for root) has no size, a runtime error.
   */
  function AccessOf(db: Db, path: Option<string>, user: string, cd: Chardata, player: Option<Player>, ownCharFile: bool)
    : Checked
  {
    if ownCharFile then Checked(Granted(Write, "!"), db)
    else
      var q := QueryGroups(db, user, cd);
      var maps := AccessMaps(q.db, user, q.names);
      match Resolve(path, None, None, player, false)
      case Resolved(parts) => Checked(GetAccessOf(parts, user, maps, false), q.db)
      case _ => Checked(Crash, q.db)
  }

  /** What `valid_access` returns: the path when access suffices, 0, or a runtime error. */
  datatype Verdict = Allowed(path: string) | Refused | Failed

  function ValidAccessOf(c: Checked, path: Option<string>, acctype: int): Verdict
  {
    match c.outcome
    case Crash => Failed
    case Granted(level, _) => if level >= acctype then (if path.Some? then Allowed(path.value) else Failed) else Refused
  }

  // ---------------------------------------------------------------------------
  // grant_access_group (lines 787-858)

  /** The code grant_access_group returns and the database afterwards. */
  datatype Change = Change(code: int, db: Db)

  /** The principal's entry, an empty mapping when it has none (lines 821-822, 848-849). */
  function EntryOf(db: Db, user: string): Principal
  {
    if user in db then db[user] else Principal(map[], None)
  }

  /** Lines 818-827: the "?" list becomes g, and a principal left with no keys is removed. */
  function SetGroups(db: Db, user: string, g: seq<string>): Db
  {
    var p := EntryOf(db, user).(groups := if |g| == 0 then None else Some(g));
    if |g| == 0 && |p.tree| == 0 then db - {user} else db[user := p]
  }

  /**
   * The checks of grant_access_group, in order, given g, the groups the
   * user is in, and the database after that query: ply is the granting
   * player's level; leave and join are the lists written when the user
   * leaves or joins the group.
   */
  function GroupChange(user: string, group: string, add: int, ply: int, cd: Chardata,
                       q: Groups, leave: seq<string>, join: seq<string>): Change
  {
    if group in q.names then
      if add != 0 then Change(-3, q.db)
      else if group in StaticGroups && cd.level >= JuniorArch then Change(-7, q.db)
      else Change(1, SetGroups(q.db, user, leave))
    else if add == 0 then Change(-4, q.db)
    else if group !in q.db then Change(-2, q.db)
    else if group in StaticGroups && ply < Archwizard then Change(-8, q.db)
    else Change(2, SetGroups(q.db, user, join))
  }

  /**
   * `grant_access_group` as written: the list it stores is the answer of
   * query_groups, so the groups given by level and by arch membership are
   * written into the "?" list with the one named.
   */
  function GrantAccessGroupAsWritten(db: Db, user: string, group: string, add: int, ply: Option<int>, cd: Chardata)
    : Change
  {
    if ply.None? then Change(-1, db)
    else if user in FakeUsers then Change(-6, db)
    else if IsGroupName(user) then Change(-5, db)
    else
      var q := QueryGroups(db, user, cd);
      GroupChange(user, group, add, ply.value, cd, q, Without(q.names, group), q.names + [group])
  }

  /** `grant_access_group` as evidently intended: only the "?" list itself loses or gains the group. */
  function GrantAccessGroup(db: Db, user: string, group: string, add: int, ply: Option<int>, cd: Chardata): Change
  {
    if ply.None? then Change(-1, db)
    else if user in FakeUsers then Change(-6, db)
    else if IsGroupName(user) then Change(-5, db)
    else
      var q := QueryGroups(db, user, cd);
      var own := ExplicitGroups(q.db, user);
      GroupChange(user, group, add, ply.value, cd, q, Without(own, group), own + [group])
  }

  // ---------------------------------------------------------------------------
  // grant_access (lines 1026-1237)

  /** What grant_access returns: a code, or a runtime error. */
  datatype Reply = Reply(code: int) | Fault

  datatype Grant = Grant(reply: Reply, db: Db)

  /** The revoke of lines 1069-1126 on the user's entry, with the path resolved keeping "." segments. */
  function RevokeIn(db: Db, path: Option<string>, user: string, player: Option<Player>): Grant
  {
    match Resolve(path, None, None, player, true)
    case Resolved(parts) =>
      if user !in db then Grant(Reply(0), db)
      else if |parts| == 0 then Grant(Fault, db)
      else
        var r := RevokePath(db[user].tree, parts, Extra(db[user]));
        if r.code == 0 then Grant(Reply(0), db)
        else if r.code == 2 then Grant(Reply(2), db - {user})
        else Grant(Reply(1), db[user := db[user].(tree := r.tree)])
    case _ => Grant(Fault, db)
  }

  /**
   * Lines 1130-1155: a group that already holds acctype through its own
   * leaf at the path is not granted again (Some(true)); None is the runtime
   * error of indexing an empty path.
   */
  function GroupHolds(db: Db, path: Option<string>, user: string, acctype: int, player: Option<Player>): Option<bool>
  {
    match Resolve(path, None, None, player, true)
    case Resolved(parts) =>
      if user !in db then Some(false)
      else if |parts| == 0 then None
      else
        var sz := |parts| - 1;
        var m := Sub(db[user].tree, parts[..sz]);
        Some(m.Some? && Get(m.value, parts[sz]) == Leaf(acctype))
    case _ => None
  }

  /** Lines 1161-1236: the level set on the path, the user's entry created first (lines 1162-1163). */
  function SetLevel(db: Db, path: Option<string>, user: string, acctype: int, player: Option<Player>): Grant
    requires acctype != NoAccess
  {
    var p := EntryOf(db, user);
    var db' := db[user := p];
    match Resolve(path, None, None, player, false)
    case Resolved(parts) =>
      if |parts| == 0 then Grant(Fault, db')
      else Grant(Reply(1), db'[user := p.(tree := GrantTree(p.tree, parts, acctype, Extra(p)))])
    case _ => Grant(Fault, db')
  }

  /**
   * `grant_access(path, user, acctype)`: granter is the euid of the granting
   * player, None without one. An acctype outside the seven leaves reqtype
   * nil, and `nil & array` is a runtime error, raised once get_access (and
   * its write of the granter's "?" list) has run.
   */
  function GrantAccess(db: Db, path: Option<string>, user: string, acctype: int, granter: Option<string>,
                       player: Option<Player>, cd: string -> Chardata): Grant
  {
    if granter.None? then Grant(Reply(-1), db)
    else
      var mine := AccessOf(db, path, granter.value, cd(granter.value), player, false);
      match mine.outcome
      case Crash => Grant(Fault, mine.db)
      case Granted(level, _) =>
        if !IsAccessType(acctype) then Grant(Fault, mine.db)
        else if level !in RequiredToGrant(acctype) && granter.value !in Admins then Grant(Reply(-1), mine.db)
        else if acctype == NoAccess then RevokeIn(mine.db, path, user, player)
        else GrantChecked(mine.db, path, user, acctype, player, cd)
  }

  /**
   * The rest of `grant_access` once the granter may grant a level other than
   * NO_ACCESS: the user's own access check, then the level is set unless the
   * user already has it (for a group, unless a member's tree already holds it).
   */
  function GrantChecked(db: Db, path: Option<string>, user: string, acctype: int, player: Option<Player>,
                        cd: string -> Chardata): (r: Grant)
    requires acctype != NoAccess
    ensures var theirs := AccessOf(db, path, user, cd(user), player, false).db;
      r.db == theirs || r == SetLevel(theirs, path, user, acctype, player)
  {
    var theirs := AccessOf(db, path, user, cd(user), player, false);
    match theirs.outcome
    case Crash => Grant(Fault, theirs.db)
    case Granted(has, _) =>
      if has != acctype then SetLevel(theirs.db, path, user, acctype, player)
      else if !IsGroupName(user) then Grant(Reply(0), theirs.db)
      else
        match GroupHolds(theirs.db, path, user, acctype, player)
        case None => Grant(Fault, theirs.db)
        case Some(true) => Grant(Reply(0), theirs.db)
        case Some(false) => SetLevel(theirs.db, path, user, acctype, player)
  }
}
