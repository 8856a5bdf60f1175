# viking-ftpd access control, modelled in Dafny

viking-ftpd is an FTP server for the files of an LPC MUD. It decides who may
read, write or grant access to a path by reading the MUD's own access
database. This project models the core of that decision, in two parts.

The first part is the MUD side: the access daemon `resources/access.c`. The
daemon keeps one database, `access_map`, that maps every principal to its
tree. A principal is a player, a group (a name with capitals) or the default
tree `*`. A tree is a nested mapping of path segments. Each segment holds a
level (-1 revoked, 1 read, 2 grant-read, 3 write, 4 grant-write, 5 grant-grant),
and the keys `.` and `*` hold a directory's own level and the default below
it. A player's list of explicit groups sits under `?`. The model covers:

- group queries;
- path resolution;
- the lazy multi-map evaluation of `_get_access`;
- `valid_access`;
- group membership changes;
- granting and revoking through `grant_access`;
- merging trees for display.

The daemon is modelled as a class whose one field is the database. Its
methods are proved equal to functions over the database value, and the
properties are proved about those functions.

The second part is the Go side.

- **Authorizer:** the permission resolution in `pkg/authorization`. It
  checks the implicit home and `open` rules first, then the user's own tree,
  then the groups (the implicit level groups first), then the default tree.
  The first answer that is not Revoked wins.
- **Converters:** the two converters from raw LPC data to access trees.
- **Object parser:** the `.o` save-file parser of `pkg/lpc`, as a line
  parser class whose methods are proved equal to cursor functions.
- **Argon2id:** parsing of Argon2id hash strings, with base64 decoding, and
  password verification.
- **Loggers:** the value formatting of the access logger, and the level
  filter and value cleaning of the application logger.

Level constants come from the player-data package: junior arch 40, elder 42,
archwizard 45.

Where the daemon's code departs from what it evidently intends, the model
keeps the code as written beside a corrected version, and the daemon class
and the database functions it is proved against use the corrected one. The
Findings table below lists these places: the `query_groups` clean-up, which
is documented as dropping groups that no longer exist from the `?` list but
never drops anything; the choice of level groups; two defects in the revoke
fold; the revoke clean-up; and the `?` list that a group join writes.

Two further differences are between parts of the system, not defects, and
both sides are modelled as written.

- **Go implicit rules.** The Go `getImplicitPermission` applies only under
  `players/`, and its `open` rule only to a path of exactly three segments.
  The daemon applies both rules under `d/` and `players/`, and the `open`
  rule at any depth.
- **Converter defaults.** The Go converter gives a scalar child its level both
  for itself and below it. The builder gives it the level for itself only.
  `TreeConversion.ConverterBuilderAgree` says where they agree.

## Model

| member | source | states |
|---|---|---|
| AccessLevels.StrType | resources/access.c:941-961 | names exactly the seven access types and gives nil for any other value |
| AccessLevels.StrTypeNamesBack | resources/access.c:941-961 | every access type's name reads back to that type |
| AccessLevels.StrTypeInjective | resources/access.c:941-961 | two types with the same name are equal |
| AccessLevels.RequiredToGrant | resources/access.c:1036-1058 | the reqtype table: the levels a granter must hold to grant each access type |
| AccessTrees.Get | resources/access.c:538-570 | an absent mapping entry reads as 0 |
| AccessTrees.EvalStep | resources/access.c:538-570 | `eval_map` on one map: the map continues only into a branch named by the segment |
| AccessTrees.EvalMap | resources/access.c:538-570 | the array method equals EvalStep at the index and leaves every other map in place |
| AccessTrees.ExhaustedKeeps | resources/access.c:543-546 | an exhausted map keeps yielding the level it had |
| AccessTrees.LeafEnds | resources/access.c:548-552 | a segment naming a leaf yields that level and ends the map |
| AccessTrees.UnnamedEnds | resources/access.c:548-566 | an unnamed segment yields the map's `*`, else the inherited level, and ends the map |
| AccessTrees.BranchChoice | resources/access.c:554-566 | a branch yields its `*` when nothing is inherited, its `.` on the last segment, its `*` on inner ones, else the inherited level |
| AccessPaths.CallerOf | resources/access.c:453-458 | an explicit caller is used as given; with neither caller nor player the caller is "nobody" |
| AccessPaths.Absolute | resources/access.c:460-483 | the absolute form fails exactly for `~` asked by root or backbone |
| AccessPaths.LeadingSlashes | resources/access.c:473 | skips exactly the run of slashes |
| AccessPaths.Resolve | resources/access.c:445-512 | nil and "" resolve to no path; every resolved segment is kept: non-empty, not `..`, and `.` only with the flag |
| AccessPaths.ScanFromKeeps | resources/access.c:492-512 | the compaction loop only ever keeps kept segments |
| AccessPaths.CompactKeeps | resources/access.c:492-512 | the compaction's result holds only kept segments |
| AccessPaths.ScanFromAppend | resources/access.c:492-512 | the right-to-left scan of a + b is the scan of b continued over a |
| AccessPaths.DotDotCancels | resources/access.c:492-512 | `x/..` cancels out |
| AccessPaths.CleanUnchanged | resources/access.c:492-512 | already clean segments pass unchanged |
| AccessPaths.CompactIdempotent | resources/access.c:492-512 | resolving a resolved path changes nothing |
| AccessPaths.DotDotAtRoot | resources/access.c:492-512 | a `..` at the root is dropped |
| AccessPaths.CompactInPlace | resources/access.c:492-512 | the in-place loop leaves exactly Compact of the old array in the suffix it returns |
| AccessPaths.ResolvePath | resources/access.c:445-512 | `_resolve` with the in-place compaction equals Resolve |
| AccessEvaluation.Inner | resources/access.c:706-709 | the inner scan keeps every map and stops at an index within range |
| AccessEvaluation.InnerScan | resources/access.c:706-709 | maps before the stopping one yielded 0, the stopping one yielded nonzero unless all were tried, each tried map took its step and no other changed |
| AccessEvaluation.Walk | resources/access.c:705-710 | the outer loop keeps the number of maps and ends at a valid index |
| AccessEvaluation.Initial | resources/access.c:687-698 | one level and one cursor per map, with the scan index at 0 |
| AccessEvaluation.Evaluate | resources/access.c:705-710 | the evaluation's decider index is within the maps |
| AccessEvaluation.Trees | resources/access.c:687-698 | the trees of maps that are all present, in order |
| AccessEvaluation.Prepare | resources/access.c:687-698 | the first loop fills the arrays with Initial, and fails exactly when a map has no tree |
| AccessEvaluation.Scan | resources/access.c:706-709 | the array loop equals Inner |
| AccessEvaluation.GetAccess | resources/access.c:675-733 | `_get_access` over arrays equals GetAccessOf |
| AccessEvaluationProperties.InnerFirst | resources/access.c:706-709 | the first map always takes its step |
| AccessEvaluationProperties.FirstExhausted | resources/access.c:705-710 | an exhausted first map keeps its level |
| AccessEvaluationProperties.FirstFollows | resources/access.c:705-710 | map 0 follows its own tree by recursive descent whatever the others hold |
| AccessEvaluationProperties.FirstMapFollowsTree | resources/access.c:705-710 | map 0 ends with the level its own tree gives the path |
| AccessEvaluationProperties.Before | resources/access.c:705-710 | the state before the last segment keeps the map count |
| AccessEvaluationProperties.WalkEnds | resources/access.c:705-710 | the last segment's scan decides the final index and levels |
| AccessEvaluationProperties.FirstNonzeroDecides | resources/access.c:705-732 | for a non-empty path every map before the decider ends at 0, and the decider, when within the maps, ends nonzero |
| AccessEvaluationProperties.RootByFirstStar | resources/access.c:687-732 | the root is decided by map 0's `*` |
| AccessEvaluationProperties.OwnTreeOverridesRules | resources/access.c:716-732 | a nonzero level from the user's own map wins over the home and `open` rules |
| AccessEvaluationProperties.HomeDirectoryRule | resources/access.c:723-727 | without an own-map level, `/d/<user>/...` and `/players/<user>/...` give grant-grant from "!" |
| AccessEvaluationProperties.OpenDirectoryRule | resources/access.c:723-729 | without an own-map level, another owner's `open` directory and everything below it is readable |
| AccessEvaluationProperties.SingleTree | resources/access.c:705-732 | with one tree and no implicit rule, the result is that tree's level for the path, and a 0 is a runtime error |
| AccessEvaluationProperties.MissingTreeCrashes | resources/access.c:683-698 | a map without a tree is a runtime error, and the character-file rule answers Write first |
| AccessEvaluationProperties.LeafCoversSubtree | resources/access.c:548-552 | a named leaf decides for its whole subtree |
| AccessEvaluationProperties.DotVersusStar | resources/access.c:554-566 | a branch's `.` applies to itself and its `*` to unnamed children |
| AccessEvaluationProperties.ExampleLevels | resources/access.c:55-102 | the documented example tree gives each listed path its documented level |
| AccessEvaluationProperties.ExampleAccess | resources/access.c:55-102 | the example through `_get_access`, including the home rule |
| AccessGrant.Put | resources/access.c:1165-1178 | the rebuilt tree holds the new mapping at the path, and every prefix of the path still leads to a mapping |
| AccessGrant.PutFrame | resources/access.c:1165-1178 | at each level of the path, only the entry on the path can differ after a Put |
| AccessGrant.SubPrefix | resources/access.c:1072-1081 | every prefix of an existing path exists |
| AccessGrant.SubLast | resources/access.c:1072-1081 | the last step of an existing path is a key one level up |
| AccessGrant.FinalGrant | resources/access.c:1185-1230 | the final grant step (star-equal removal, `*` purge, plain set) never collapses the top level into a parent; its levels are stated by FinalLevel |
| AccessGrant.GrantIn | resources/access.c:1165-1230 | the walk that splits leaves and creates mappings, then the final step, keeps the top level; its levels are stated by GrantInLevel |
| AccessGrantProperties.FinalLevel | resources/access.c:1185-1230 | the final step gives the last segment the level granted |
| AccessGrantProperties.FreshLevel | resources/access.c:1171-1172 | below a split leaf the new chain gives the level granted |
| AccessGrantProperties.GrantInLevel | resources/access.c:1165-1230 | the walk and final step give the path the level granted |
| AccessGrantProperties.GrantedLevel | resources/access.c:1161-1236 | after granting t to a path (not a `*` entry), the principal's own tree gives the path exactly t |
| AccessGrantProperties.FinalFrame | resources/access.c:1185-1230 | the final step keeps `*` and the level of every sibling path, and collapses the mapping only when the siblings already read the level granted |
| AccessGrantProperties.FreshFrame | resources/access.c:1171-1172 | beside the fresh chain below a split leaf every path reads the split leaf's level |
| AccessGrantProperties.GrantInFrame | resources/access.c:1165-1230 | the walk and final step keep the mapping's `*`, its `.` below the top, and the level of every path beside the granted one |
| AccessGrantProperties.GrantFrame | resources/access.c:1161-1236 | a grant to a path without `.` or `*` segments leaves the level of every path that is neither the granted node, below it, nor its parent |
| AccessGrantProperties.LeafSplitKeepsLevels | resources/access.c:1167-1169 | splitting a leaf into `.` and `*` keeps the level of every path through it |
| AccessGrantProperties.StarGrantPurges | resources/access.c:1206-1227 | granting `*` sets it and removes exactly the sibling leaves with the same level |
| AccessGrantProperties.EqualToStarRemoved | resources/access.c:1185-1204 | a node granted the level its `*` already gives is removed |
| AccessGrantProperties.FinalCanonical | resources/access.c:1185-1230 | the final step stores no 0 |
| AccessGrantProperties.InstallCanonical | resources/access.c:1185-1230 | installing a 0-free result keeps the mapping 0-free |
| AccessGrantProperties.FreshCanonical | resources/access.c:1171-1172 | the fresh chain stores no 0 |
| AccessGrantProperties.GrantInCanonical | resources/access.c:1165-1230 | the walk stores no 0 |
| AccessGrantProperties.GrantCanonical | resources/access.c:1161-1236 | granting never stores a 0 |
| AccessGrantProperties.RevokeCodes | resources/access.c:1069-1126 | the daemon's revoke answers 0 exactly when the node is absent (nothing changes), and 2 exactly when the map is left empty |
| AccessGrantProperties.RevokePathCodes | resources/access.c:1069-1126 | the same reply codes for the corrected revoke |
| AccessGrantProperties.PutKeeps | resources/access.c:1086-1090 | a Put keeps the entries off the path |
| AccessGrantProperties.PutAtKeeps | resources/access.c:1086-1090 | a Put at a path level keeps the entries off the path |
| AccessGrantProperties.KeptTrans | resources/access.c:1069-1126 | off-path preservation composes |
| AccessGrantProperties.RevokeKeepsSiblings | resources/access.c:1069-1126 | the corrected revoke keeps every entry beside the path above the node's parent |
| AccessGrantProperties.CleanupKeeps | resources/access.c:1110-1115 | the corrected clean-up deletes only from the node's parent |
| AccessGrantProperties.CompactKeeps | resources/access.c:1092-1115 | the corrected fold and clean-up keep every entry beside the path above the node's parent |
| AccessGrantProperties.EmptyBranchGone | resources/access.c:1110-1115 | deleting an emptied branch changes the level of no path |
| AccessGrantProperties.PairFolds | resources/access.c:1092-1108 | replacing a branch that holds only an equal `.` and `*` by that level changes the level of no path |
| AccessGrantProperties.CompactLevels | resources/access.c:1092-1115 | the corrected fold and clean-up change the level of no path |
| AccessGrantProperties.RemoveKeeps | resources/access.c:1086-1090 | removing a named node changes the level of no path outside it, nor the mapping's `.` and `*` |
| AccessGrantProperties.UnnamedAlike | resources/access.c:548-566 | every segment a mapping does not name reads the same level, whatever follows it |
| AccessGrantProperties.RevokeKeepsLevels | resources/access.c:1069-1126 | the corrected revoke of a named node changes the level of no path outside that node |
| AccessGrantProperties.RevokeFallsBack | resources/access.c:1069-1126 | after the corrected revoke the node and every path below it read what an unnamed sibling read before |
| AccessGrantProperties.FoldRaisesLevel | resources/access.c:1092-1108 | as written, revoking /a/b/y from a branch holding `.` Read and `*` Write raises /a/b from Read to Write; as intended /a/b stays Read |
| AccessGrantProperties.FoldLosesEntry | resources/access.c:1098-1108 | as written, revoking /a/b/y loses the grant on /a/b/x; as intended it stays |
| AccessGrantProperties.CleanupLosesSibling | resources/access.c:1110-1115 | as written, emptying /a/b deletes /a and the grant on /a/c with it |
| AccessMerge.SameEntries | resources/access.c:1348-1382 | mappings that agree on every key are equal |
| AccessMerge.MergeAt | resources/access.c:1358-1381 | what the merged view holds at each key |
| AccessMerge.MergeMaps | resources/access.c:1348-1382 | the loop over the tree's keys computes Merge |
| AccessMerge.MergeFinish | resources/access.c:1380-1381 | the final `*` statement completes Merge |
| AccessMerge.MergeKey | resources/access.c:1359-1377 | one loop turn changes the view at that key alone |
| AccessMergeProperties.MergeIntoEmpty | resources/access.c:1348-1382 | the first tree merged into the empty view is copied |
| AccessMergeProperties.MergeSelf | resources/access.c:1348-1382 | merging a view into itself changes nothing |
| AccessMergeProperties.MergeKeepsView | resources/access.c:1358-1381 | the view keeps every key and level, and with a `*` gains nothing |
| AccessMergeProperties.MergeKeys | resources/access.c:1358-1381 | the merged view's keys, in both directions |
| AccessMergeProperties.MergeCanonical | resources/access.c:1348-1382 | merging 0-free trees gives a 0-free view |
| AccessDatabase.CollectGroupsSpec | resources/access.c:315-330 | the loop adds each non-fake group key once, after what it had |
| AccessDatabase.AllGroupsSpec | resources/access.c:309-333 | the static groups first, then each other group principal exactly once |
| AccessDatabase.StaticGroupsDistinct | resources/access.c:193-200 | the static groups are distinct |
| AccessDatabase.ArchFrom | resources/access.c:361-368 | only arch groups that have a tree |
| AccessDatabase.ArchGroups | resources/access.c:361-368 | every arch group given has a tree |
| AccessDatabase.ExplicitGroups | resources/access.c:370-371 | a non-empty `?` list belongs to a principal in the database |
| AccessDatabase.Existing | resources/access.c:385-394 | keeps exactly the groups with a tree |
| AccessDatabase.AddMissing | resources/access.c:385-394 | appends each group not yet held, keeping the prefix |
| AccessDatabase.ScanAsWritten | resources/access.c:385-394 | the as-written clean-up never lengthens the list |
| AccessDatabase.Without | resources/access.c:805-830 | `-=` removes every copy and nothing else |
| AccessDatabaseProperties.NoGroupsForFakesAndGroups | resources/access.c:354-359 | fake users and groups are in no group, and asking changes nothing |
| AccessDatabaseProperties.QueryGroupsSpec | resources/access.c:349-409 | the user's existing `?` groups first and in order, then level and arch groups, all with trees; the `?` list loses exactly the groups without a tree |
| AccessDatabaseProperties.ExistingAll | resources/access.c:385-394 | a filter that drops nothing is the identity |
| AccessDatabaseProperties.LevelGroups | resources/access.c:377-383 | Arch_full from ARCHWIZARD, else Arch_junior from JUNIOR_ARCH except ELDER, each when its tree exists |
| AccessDatabaseProperties.ScanAsWrittenDropsNothing | resources/access.c:385-394 | the as-written loop walks arch groups, all with trees, so it drops nothing |
| AccessDatabaseProperties.AsWrittenNeverCleansUp | resources/access.c:385-402 | query_groups as written never writes the database |
| AccessDatabaseProperties.JuniorNeedsFull | resources/access.c:377-383 | as written, a level-40 arch without an Arch_full tree gets no Arch_junior; as intended it does |
| AccessDatabaseProperties.StaleGroupCrashes | resources/access.c:385-402 | as written, a stale `?` group stays and every access check then fails; as intended it is dropped |
| AccessDatabaseProperties.AccessMapsOrder | resources/access.c:613-653 | the maps are the own tree (when present), then the groups in order, then `*` |
| AccessDatabaseProperties.MapsAllPresent | resources/access.c:613-653 | with the cleaning query every map has a tree when `*` exists |
| AccessDatabaseProperties.AccessOfKeepsTrees | resources/access.c:744-746 | an access check changes only group lists |
| AccessDatabaseProperties.ValidAccessSpec | resources/access.c:756-784 | the path is allowed exactly when the level reached is at least the one asked for; a runtime error otherwise fails |
| AccessDatabaseProperties.GroupChangeSpec | resources/access.c:787-858 | a refusal leaves the queried database; codes 1 and 2 write the lists |
| AccessDatabaseProperties.SetGroupsSpec | resources/access.c:818-827 | the list written is the principal's `?` list afterwards; other principals keep theirs |
| AccessDatabaseProperties.GroupChangeOf | resources/access.c:787-858 | the membership change is the checks applied after one group query, as written and as intended |
| AccessDatabaseProperties.JoinedGroupSticks | resources/access.c:833-857 | a user who joins a group stays in it whatever its level |
| AccessDatabaseProperties.LeftGroupGone | resources/access.c:805-830 | a user who leaves a group no longer lists it |
| AccessDatabaseProperties.RefusedGroupChange | resources/access.c:787-858 | a refused change alters no tree |
| AccessDatabaseProperties.LevelGroupStored | resources/access.c:833-851 | as written, joining a group also stores the level group Arch_full, which then outlives the level |
| AccessDatabaseProperties.OnlyNamedGroupStored | resources/access.c:833-851 | as intended only the named group is stored |
| AccessDatabaseProperties.GrantNeedsPlayerAndType | resources/access.c:1032-1058 | without a granting player the reply is -1 and nothing changes; an unknown type is a runtime error raised after the granter's access check, whose writes stay |
| AccessDatabaseProperties.QueryGroupsFrame | resources/access.c:349-409 | a group query keeps the principals and every other principal's entry |
| AccessDatabaseProperties.AccessOfFrame | resources/access.c:744-746 | an access check keeps the principals and every other principal's entry |
| AccessDatabase.GrantChecked | resources/access.c:1129-1155 | once the granter passes, the result is the database left by the user's own access check (the user, or a group naming the node, already has the level) or that database with the level set |
| AccessDatabaseProperties.GrantAfterCheck | resources/access.c:1069-1236 | setting or revoking one user's level keeps every other principal's entry |
| AccessDatabaseProperties.GrantSteps | resources/access.c:1026-1237 | a grant leaves the database of its access checks, or sets the level on it, or revokes on it |
| AccessDatabaseProperties.GrantAccessFrame | resources/access.c:1026-1237 | a grant to one user adds or removes no other principal, changes no other tree, and changes nothing of a principal that is not the granter |
| AccessDatabaseProperties.GrantRefused | resources/access.c:1060-1066 | a non-admin lacking every required level is refused with -1 and no tree changes |
| AccessDatabaseProperties.GrantThenAccess | resources/access.c:1026-1237 | after a successful grant, get_access reports that level for the path from the user's own map |
| AccessDatabaseProperties.GrantedDb | resources/access.c:1129-1236 | a successful grant sets the level on the database the two access checks leave |
| AccessDatabaseProperties.RevokeReplies | resources/access.c:1069-1126 | reply 2 removes the principal, 0 changes nothing, 1 keeps it |
| AccessDaemon.AccessDaemon.constructor | resources/access.c:190-200 | the daemon holds the loaded database |
| AccessDaemon.AccessDaemon.QueryAllGroups | resources/access.c:309-333 | the loop computes AllGroups |
| AccessDaemon.AccessDaemon.ArchGroupsOf | resources/access.c:361-368 | the loop computes the arch groups with a tree |
| AccessDaemon.AccessDaemon.KeepExisting | resources/access.c:370-394 | the loop keeps exactly the `?` groups that have a tree, in order |
| AccessDaemon.AccessDaemon.QueryGroups | resources/access.c:349-409 | the answer and the new database are those of the intended query_groups |
| AccessDaemon.AccessDaemon.StoreCleaned | resources/access.c:397-402 | writes back the cleaned `?` list |
| AccessDaemon.AccessDaemon.AppendMissing | resources/access.c:385-394 | the loop appends each group not yet held |
| AccessDaemon.AccessDaemon.GetAccessMaps | resources/access.c:613-653 | the maps after one group query |
| AccessDaemon.AccessDaemon.GroupMaps | resources/access.c:626-640 | each group paired with its tree, nil when it has none |
| AccessDaemon.AccessDaemon.GetAccess | resources/access.c:675-746 | equals AccessOf on the old database |
| AccessDaemon.AccessDaemon.ValidAccess | resources/access.c:756-784 | answers the path exactly as ValidAccessOf |
| AccessDaemon.AccessDaemon.StoreGroups | resources/access.c:818-851 | the `?` list becomes the given list |
| AccessDaemon.AccessDaemon.GrantAccessGroup | resources/access.c:787-858 | equals the intended membership change |
| AccessDaemon.AccessDaemon.RevokeAccess | resources/access.c:1069-1126 | equals the corrected revoke on the old database |
| AccessDaemon.AccessDaemon.SetAccessLevel | resources/access.c:1161-1236 | equals SetLevel on the old database |
| AccessDaemon.AccessDaemon.GrantAccess | resources/access.c:1026-1237 | equals GrantAccess on the old database |
| StringOrder.Reflexive | resources/access.c:315 | the key order is reflexive |
| StringOrder.Antisymmetric | resources/access.c:315 | the key order is antisymmetric |
| StringOrder.Transitive | resources/access.c:315 | the key order is transitive |
| StringOrder.Total | resources/access.c:315 | the key order is total |
| StringOrder.LeastExists | resources/access.c:1104 | every non-empty key set has a least key |
| StringOrder.LeastUnique | resources/access.c:1104 | the least key is unique |
| StringOrder.Least | resources/access.c:1104 | `map_indices(m)[0]` is the least key |
| StringOrder.SortedKeys | resources/access.c:315 | `keys()` lists each key once, sorted |
| Strings.LowerCaseFixed | resources/access.c:322 | a name is its own lower case exactly when it has no capital |
| AuthorizationTypes.LevelsIncrease | pkg/authorization/types.go:11-18 | the named levels increase strictly |
| AuthorizationTypes.NamedLevelCapabilities | pkg/authorization/types.go:20-33 | exactly Read and above read, Write and above write, GrantGrant grants |
| AuthorizationTypes.CapabilitiesNest | pkg/authorization/types.go:20-33 | granting implies writing, writing implies reading, Revoked cannot read |
| Authorizer.ImplicitPermission | pkg/authorization/authorizer.go:89-100 | no implicit level means Revoked |
| Authorizer.ImplicitPermissionCases | pkg/authorization/authorizer.go:89-100 | grant-grant exactly under `players/<user>`, Read exactly on `players/<other>/open`, nothing under `d/` |
| Authorizer.CheckNodePermission | pkg/authorization/authorizer.go:236-264 | a nil node gives Revoked |
| Authorizer.Descend | pkg/authorization/authorizer.go:236-264 | the matched depth is within the path |
| Authorizer.CheckIsDeepestMatch | pkg/authorization/authorizer.go:236-264 | the deepest matched node decides: on a full match its dot, falling to its star when Revoked; otherwise its star; ancestors never apply |
| Authorizer.ImplicitGroupRule | pkg/authorization/authorizer.go:103-132 | at most one implicit group, Arch_full or Arch_junior, each exactly under its level condition |
| Authorizer.FirstNonRevoked | pkg/authorization/authorizer.go:160-187 | the answer is Revoked or one of the answers |
| Authorizer.FirstNonRevokedAppend | pkg/authorization/authorizer.go:160-187 | the first non-Revoked answer of a + b comes from a when a has one |
| Authorizer.FirstGroupGrantIsFirstAnswer | pkg/authorization/authorizer.go:172-180 | the group loop returns the first non-Revoked group answer |
| Authorizer.EffectiveIsFirstAnswer | pkg/authorization/authorizer.go:144-188 | without an implicit level, the result is the first non-Revoked answer of own tree, groups in order, then `*` |
| Authorizer.AnswersAppend | pkg/authorization/authorizer.go:160-187 | answers of a + b are answers of a then of b |
| Authorizer.Authorizer.constructor | pkg/authorization/authorizer.go:39-55 | the authorizer holds the given trees and character levels |
| Authorizer.Authorizer.GetImplicitGroups | pkg/authorization/authorizer.go:103-132 | equals ImplicitGroups |
| Authorizer.Authorizer.GetGroups | pkg/authorization/authorizer.go:211-233 | implicit groups first, then the tree's own |
| Authorizer.Authorizer.GetEffectivePermission | pkg/authorization/authorizer.go:144-188 | the loop computes EffectivePermission |
| Authorizer.Authorizer.HasPermission | pkg/authorization/authorizer.go:135-141 | true exactly when the effective permission reaches the required one |
| TreeConversion.IntegerDigits | pkg/authorization/access_tree_builder.go:120-121 | the integer part holds only digits |
| TreeConversion.PermissionOf | pkg/authorization/converter.go:121-130 | the converter accepts exactly integers; an integer is its own permission |
| TreeConversion.ListNames | pkg/authorization/converter.go:76-87 | the names of a string list, in order |
| TreeConversion.ConvertNode | pkg/authorization/converter.go:43-118 | fails exactly on an ill-shaped entry; otherwise the specified node and exactly the group names found, in list order when there are no nested groups |
| TreeConversion.ConvertEntry | pkg/authorization/converter.go:52-114 | one entry: fails exactly when ill-shaped, else adds it and its groups |
| TreeConversion.CollectGroupNames | pkg/authorization/converter.go:76-87 | fails exactly on a non-string item, else the names in order |
| TreeConversion.PartialNodeAdd | pkg/authorization/converter.go:52-114 | the node built over one more key adds that entry |
| TreeConversion.GroupsStep | pkg/authorization/converter.go:52-114 | the group-set invariant after one more key |
| TreeConversion.ConvertTrees | pkg/authorization/converter.go:6-27 | fails with the missing-map error exactly when `access_map` is absent, and fails on any ill-shaped tree; otherwise one specified tree per principal |
| TreeConversion.ConvertToAccessTrees | pkg/authorization/converter.go:6-27 | ConvertTrees with the converter's rules |
| TreeConversion.BuildAccessTrees | pkg/authorization/access_tree_builder.go:6-27 | ConvertTrees with the builder's rules |
| TreeConversion.ChildOfSpecNode | pkg/authorization/converter.go:60-113 | each child key becomes a child node of the right shape |
| TreeConversion.EmptyMapNode | pkg/authorization/converter.go:44-48 | an empty mapping becomes Revoked, Revoked, no children |
| TreeConversion.SpecNodeFields | pkg/authorization/converter.go:52-114 | `.` sets the level, a scalar `*` the default, other keys except `?` become children |
| TreeConversion.ScalarEntryLevels | pkg/authorization/converter.go:99-112 | a scalar child gives its level to itself and, in the converter, below it |
| TreeConversion.UnmatchedSegmentLevel | pkg/authorization/authorizer.go:254-263 | an unmatched segment falls to the scalar `*`, else Revoked |
| TreeConversion.ConverterInputsBuild | pkg/authorization/access_tree_builder.go:117-127 | whatever the converter accepts the builder accepts |
| TreeConversion.ConverterBuilderAgree | pkg/authorization/access_tree_builder.go:99-111 | both give every path the same level unless it goes below a scalar entry |
| Strings.Split | pkg/authentication/argon2id.go:50 | the pieces contain no separator |
| Strings.SplitJoin | pkg/authentication/argon2id.go:50 | splitting a join of separator-free pieces gives them back |
| Strings.JoinAvoids | pkg/lpc/oparser.go:271 | a character that is neither the separator nor in any piece is not in the join |
| Strings.TrimPrefix | pkg/authentication/argon2id.go:60 | the text after a present prefix |
| Strings.NatToDecimal | pkg/lpc/oparser.go:258 | decimal digits without leading zeros |
| Strings.DecimalRoundTrip | pkg/lpc/oparser.go:258 | the digits of n read back as n |
| Argon2id.ParseUint32 | pkg/authentication/argon2id.go:61-64 | accepts exactly decimal digit strings within 32 bits, with their value |
| Argon2id.DecimalCanonical | pkg/authentication/argon2id.go:61-64 | dropping leading zeros keeps the value |
| Argon2id.DecimalPrints | pkg/authentication/argon2id.go:61-64 | a canonical digit string is the rendering of its value |
| Argon2id.ParseArgon2idHash | pkg/authentication/argon2id.go:48-120 | each error case in order; success gives the six fields read |
| Argon2id.ParseAcceptsValidFields | pkg/authentication/argon2id.go:48-120 | a string whose fields read correctly is accepted with them |
| Argon2id.FormatParamsRoundTrip | pkg/authentication/argon2id.go:67-105 | the parameter field reads back |
| Argon2id.FormatRoundTrip | pkg/authentication/argon2id.go:48-120 | parsing the canonical string gives the fields back |
| Argon2id.VerifyPassword | pkg/authentication/argon2id.go:24-45 | a hash that fails to parse reports its parse error, a version other than 19 is refused, and Verified only follows a parsed version-19 hash |
| Argon2id.VersionCheckedBeforeHashing | pkg/authentication/argon2id.go:31-34 | an unsupported version is refused whatever the key derivation |
| Base64.SextetRoundTrip | pkg/authentication/argon2id.go:107-117 | the alphabet maps values to characters and back |
| Base64.Decode | pkg/authentication/argon2id.go:107-117 | after line breaks are dropped, decoding succeeds exactly on decodable text, three bytes per four characters |
| Base64.Encode | pkg/authentication/argon2id.go:107-117 | the encoding is decodable and has no line breaks |
| Base64.SextetsQuantum | pkg/authentication/argon2id.go:107-117 | the sextets of three bytes recombine into them |
| Base64.DecodeEncode | pkg/authentication/argon2id.go:107-117 | decoding an encoding gives the bytes back |
| Base64.PaddingRejected | pkg/authentication/argon2id.go:107-117 | raw decoding refuses `=` |
| AccessLogger.FormatValue | pkg/logging/logger_access.go:44-53 | unchanged without space, `=` or quote; otherwise quoted with every inner quote escaped |
| AccessLogger.EscapedHasNoBareQuote | pkg/logging/logger_access.go:47-50 | every quote in the escaped text is preceded by a backslash |
| AccessLogger.UnescapeEscape | pkg/logging/logger_access.go:47-50 | unescaping the escape gives the text back |
| AccessLogger.FormatValueRoundTrip | pkg/logging/logger_access.go:44-53 | reading a formatted value gives the original |
| AppLogger.ShouldLogFollowsSeverity | pkg/logging/logger_app.go:42-51 | between named levels the filter is the severity order |
| AppLogger.UnknownLevelIsDebug | pkg/logging/logger_app.go:42-51 | an unnamed level is logged exactly when debug would be, and an unnamed configured level lets everything through |
| AppLogger.ReplaceChar | pkg/logging/logger_app.go:80-82 | every occurrence replaced, length kept |
| AppLogger.Fields | pkg/logging/logger_app.go:84 | the fields are non-empty and space-free |
| AppLogger.ToString | pkg/logging/logger_app.go:73-86 | nil gives ""; otherwise one line with single inner spaces and no tab, CR or LF |
| AppLogger.FieldsOfJoin | pkg/logging/logger_app.go:84 | fields of single-space-joined words give the words |
| AppLogger.FieldsIgnoreSpaceKind | pkg/logging/logger_app.go:80-84 | replacing one space character by another changes no field |
| AppLogger.ToStringKeepsWords | pkg/logging/logger_app.go:73-86 | the cleaned value keeps exactly the words, in order |
| AppLogger.ToStringIdempotent | pkg/logging/logger_app.go:73-86 | cleaning twice is cleaning once |
| SaveFormat.Start | pkg/lpc/oparser.go:48-54 | a fresh parser is at 0 with the line's length as width |
| SaveFormat.Next | pkg/lpc/oparser.go:393-401 | NUL and no move at the end; else one character forward, width 1 |
| SaveFormat.Expect | pkg/lpc/oparser.go:403-409 | consumes the character when next; otherwise steps back by the last width, which at the end of the line moves back over the last character read |
| SaveFormat.SkipSpaces | pkg/lpc/oparser.go:411-419 | stops at the first character that is not a space or tab |
| SaveFormat.Atoi | pkg/lpc/oparser.go:362 | a value is read only from text holding a digit; AtoiItoa states what is read |
| SaveFormat.ParseIntAt | pkg/lpc/oparser.go:353-367 | the cursor stays in the line and advances on success; IntRead states the value read |
| SaveFormat.ParseFloatAt | pkg/lpc/oparser.go:167-202 | the cursor stays in the line and advances on success; FloatLiteralRead states the literal read |
| SaveFormat.ParseNumberAt | pkg/lpc/oparser.go:145-165 | the cursor stays in the line and advances on success; NumberIsInt and NumberIsFloat state the dispatch |
| SaveFormat.ParseStringAt | pkg/lpc/oparser.go:319-351 | the cursor stays in the line and advances on success; StringRead and StringUnterminated state the result |
| SaveFormat.ParseBlueprintAt | pkg/lpc/oparser.go:369-383 | succeeds exactly when the line starts with `#` |
| SaveFormat.ParseIdentifierAt | pkg/lpc/oparser.go:204-214 | always succeeds with the cursor in the line; IdentifierRead states the name read |
| SaveFormat.ParseValueAt | pkg/lpc/oparser.go:127-143 | the cursor stays in the line and advances on success; ValueRead states the values read |
| SaveFormat.ParseMapAt | pkg/lpc/oparser.go:216-245 | the cursor stays in the line and advances on success; MapClose states the closing |
| SaveFormat.ParseMapEntryAt | pkg/lpc/oparser.go:247-288 | the cursor stays in the line and advances on success |
| SaveFormat.ParseListAt | pkg/lpc/oparser.go:290-317 | the cursor stays in the line and advances on success; ListClose states the closing |
| SaveFormat.ParseLineAt | pkg/lpc/oparser.go:100-125 | the cursor stays in the line; LineRead and BlueprintLine state what is read |
| SaveFormat.Within | pkg/lpc/oparser.go:303 | an enclosing check reports its own error unless the cause is a panic, which passes through unchanged |
| SaveFormat.ParseLines | pkg/lpc/oparser.go:70-93 | the loop fails only with a panic, or in strict mode with a rejected line |
| SaveFormat.ParseObjectOf | pkg/lpc/oparser.go:57-96 | fails with empty input exactly on "" |
| ObjectParsing.LineParser.constructor | pkg/lpc/oparser.go:48-54 | the cursor is Start |
| ObjectParsing.LineParser.Peek | pkg/lpc/oparser.go:385-391 | equals Peek |
| ObjectParsing.LineParser.Next | pkg/lpc/oparser.go:393-401 | equals Next |
| ObjectParsing.LineParser.Expect | pkg/lpc/oparser.go:403-409 | equals Expect |
| ObjectParsing.LineParser.SkipSpaces | pkg/lpc/oparser.go:411-419 | the loop equals SkipSpaces |
| ObjectParsing.LineParser.SkipDigits | pkg/lpc/oparser.go:358-360 | the loop equals SkipDigits |
| ObjectParsing.LineParser.ParseInt | pkg/lpc/oparser.go:353-367 | equals ParseIntAt |
| ObjectParsing.LineParser.SkipFloatChars | pkg/lpc/oparser.go:174-176 | the loop equals SkipFloatChars |
| ObjectParsing.LineParser.SkipHexDigits | pkg/lpc/oparser.go:186-198 | the loop equals SkipHexDigits |
| ObjectParsing.LineParser.ParseFloat | pkg/lpc/oparser.go:167-202 | equals ParseFloatAt |
| ObjectParsing.LineParser.ParseNumber | pkg/lpc/oparser.go:145-165 | the look-ahead loop, then equals ParseNumberAt |
| ObjectParsing.LineParser.ParseString | pkg/lpc/oparser.go:319-351 | the loop equals ParseStringAt |
| ObjectParsing.LineParser.ParseBlueprint | pkg/lpc/oparser.go:369-383 | the loop equals ParseBlueprintAt |
| ObjectParsing.LineParser.ParseIdentifier | pkg/lpc/oparser.go:204-214 | the loop equals ParseIdentifierAt |
| ObjectParsing.LineParser.ParseValue | pkg/lpc/oparser.go:127-143 | equals ParseValueAt |
| ObjectParsing.LineParser.ParseHeader | pkg/lpc/oparser.go:290-303 | equals Header: the opening, the size and the bar, with the panic of a negative list size (the mapping header has the same shape) |
| ObjectParsing.LineParser.ParseMap | pkg/lpc/oparser.go:216-245 | equals ParseMapAt |
| ObjectParsing.LineParser.MapEntries | pkg/lpc/oparser.go:229-237 | the loop equals MapEntriesAt |
| ObjectParsing.LineParser.ParseMapEntry | pkg/lpc/oparser.go:247-288 | equals ParseMapEntryAt |
| ObjectParsing.LineParser.KeyOf | pkg/lpc/oparser.go:253-274 | the key switch equals MapKey, whose meaning IntKeyDecimal, ListKeySplits and KeyKinds state |
| ObjectParsing.LineParser.ParseList | pkg/lpc/oparser.go:290-317 | equals ParseListAt |
| ObjectParsing.LineParser.ListItems | pkg/lpc/oparser.go:303-311 | the loop equals ListItemsAt |
| ObjectParsing.LineParser.ParseLine | pkg/lpc/oparser.go:100-125 | equals ParseLineAt |
| ObjectParsing.ObjectParser.constructor | pkg/lpc/oparser.go:17-21 | holds the strict flag |
| ObjectParsing.ObjectParser.ParseObject | pkg/lpc/oparser.go:57-96 | equals ParseObjectOf |
| ObjectParsing.ObjectParser.ParseLines | pkg/lpc/oparser.go:70-93 | the line loop equals ParseLines |
| SaveFormatProperties.AtoiItoa | pkg/lpc/oparser.go:362 | Atoi reads back what Itoa writes |
| SaveFormatProperties.IntRead | pkg/lpc/oparser.go:353-367 | parseInt reads back a written integer |
| SaveFormatProperties.FloatRead | pkg/lpc/oparser.go:167-202 | parseNumber reads back a written float literal |
| SaveFormatProperties.StringRead | pkg/lpc/oparser.go:319-351 | parseString reads back a quoted, escaped string |
| SaveFormatProperties.BackslashKept | pkg/lpc/oparser.go:329-339 | a backslash before anything but a quote is kept with the next character |
| SaveFormatProperties.StringUnterminated | pkg/lpc/oparser.go:325-328 | without a closing quote the string fails as unterminated |
| SaveFormatProperties.IntKeyDecimal | pkg/lpc/oparser.go:257-258 | an integer key becomes its decimal text, which reads back |
| SaveFormatProperties.ListKeySplits | pkg/lpc/oparser.go:259-271 | a list key of comma-free strings splits back into its items |
| SaveFormatProperties.KeyKinds | pkg/lpc/oparser.go:254-274 | floats and mappings are not keys; a bad list item fails |
| SaveFormatProperties.ValueRead | pkg/lpc/oparser.go:127-143 | parseValue reads back each written scalar up to a delimiter |
| SaveFormatProperties.ExpectPairSucceeds | pkg/lpc/oparser.go:217 | the two-character opening is consumed exactly when present |
| SaveFormatProperties.ListItemsCount | pkg/lpc/oparser.go:303-311 | on success the list loop returns the items already read followed by exactly n more |
| SaveFormatProperties.ListClose | pkg/lpc/oparser.go:313-316 | `})` closes the list, else the missing-close error |
| SaveFormatProperties.MapEntriesCount | pkg/lpc/oparser.go:229-237 | on success the entry loop keeps the keys already read and adds at most n |
| SaveFormatProperties.MapClose | pkg/lpc/oparser.go:239-244 | `])` closes the mapping, else the missing-close error |
| SaveFormatProperties.ValueIsList | pkg/lpc/oparser.go:135-139 | a value starting with `({` is the list parser's answer |
| SaveFormatProperties.NegativeHeader | pkg/lpc/oparser.go:290-303 | a list header whose size is negative panics once the bar is read |
| SaveFormatProperties.NegativeListSizePanics | pkg/lpc/oparser.go:290-303 | a list whose size is negative panics before any item, and so does the value parse that reads it |
| SaveFormatProperties.NegativeListLinePanics | pkg/lpc/oparser.go:100-125 | a line whose value is a list of negative size panics, whatever follows the bar |
| SaveFormatProperties.IdentifierRead | pkg/lpc/oparser.go:204-214 | a name followed by a space is read |
| SaveFormatProperties.LineRead | pkg/lpc/oparser.go:100-125 | a line of name, space and written value reads back |
| SaveFormatProperties.BlueprintLine | pkg/lpc/oparser.go:100-107 | `#text` is the blueprint text |
| SaveFormatProperties.NonStrictRecordsEveryBadLine | pkg/lpc/oparser.go:70-93 | when no line panics, non-strict mode succeeds and records one error per rejected line, in order |
| SaveFormatProperties.StrictStopsAtFirstBadLine | pkg/lpc/oparser.go:78-86 | strict mode fails with the first rejected line, or with the panic when that line panicked |
| SaveFormatProperties.StrictAgreesWhenClean | pkg/lpc/oparser.go:57-96 | without a rejected line both modes agree and record no error |
| SaveFormatProperties.LastLineWins | pkg/lpc/oparser.go:88-90 | when no line panics, a key holds the value of its last accepted line |
| SaveFormatProperties.NonStrictObject | pkg/lpc/oparser.go:57-96 | ParseObject non-strict, when no line panics: errors per bad line, last line per key |
| SaveFormatProperties.StrictObject | pkg/lpc/oparser.go:57-96 | ParseObject strict: fails with the first bad line, or with the panic when that line panicked |
| SaveFormatProperties.PanicEndsParse | pkg/lpc/oparser.go:70-93 | a panicking line ends the loop in either mode once no earlier line did |
| SaveFormatProperties.NonStrictObjectFails | pkg/lpc/oparser.go:57-96 | ParseObject non-strict fails exactly when some line panics |

## Left out

- I/O and persistence are not modelled. This covers `save_db`/`restore_object`, logging of grants, messages to players, file reads of the access source, and the character-file lookup, which is a boolean parameter.
- Display and listing operations are not modelled: `show_access`, `list_access`, `expand_path`, `valid_users` and `list_perm`. `merge_maps`, which builds their combined view, is modelled.
- `grant_access_default` and the daemon's other administrative entry points are not modelled.
- `this_player()`, `geteuid`, the caller and the current directory are parameters, not runtime lookups.
- The Go authorizer's caching, refresh and mutex are not modelled. Paths are given already split into segments, so `path.Clean` is not modelled.
- `argon2.IDKey` is a parameter, and `subtle.ConstantTimeCompare` is modelled as equality. Timing is not modelled.
- The multi-verifier that tries several password schemes is not modelled.
- Float values are not modelled. A float is kept as its literal text, since `strconv.ParseFloat` values are not modelled, and the builder's float permission is the literal truncated toward zero.
- LPC mappings are shared by reference. The model rebuilds trees along the path instead of mutating aliases, so aliasing between principals' trees is not captured.
- Go map iteration order is unspecified. Every loop over a Go map is modelled with an arbitrary choice of the next key, and its contract holds for every order.
- A path segment literally named `?` is not modelled as reaching the group list stored under that key.
- Strings are sequences of characters, so the parser's UTF-8 rune widths are taken as 1.
- ParseIdentifierAt: a name character is an ASCII letter, an ASCII digit or `_`. Go's `unicode.IsLetter` and `unicode.IsDigit` also accept non-ASCII letters and digits, so a name holding one is cut short in the model; the Unicode tables are not modelled.
- ParseIdentifier: the `LineParser` method equals ParseIdentifierAt and has the same ASCII restriction.
- SkipDigits, SkipFloatChars, ParseNumberAt and ParseValueAt: where the Go parser tests `unicode.IsDigit`, the model tests for ASCII digits. A non-ASCII digit starts no number in the model, where Go would start one and then fail in `strconv`; only the error reported differs.
- The Go `make` calls with a huge positive size can fail to allocate; the model treats every non-negative list size as allocatable. A negative list size is modelled as the panic it is. A negative mapping size reads no entry, since the mapping is made without a size.
- GrantFrame: does not promise the level of the granted node's parent path. When a grant leaves a mapping holding only `*`, the daemon collapses that mapping into its parent's entry, which can change the parent's level: in the tree `{"*": Read, a: {"*": Write, x: GrantRead}}`, granting Write on /a/x makes /a read Write instead of Read.
- RevokeKeepsLevels: does not cover revoking a `.` or `*` entry, which by design changes the levels the parent mapping gives.
- `AccessDatabase.RevokeIn` uses the corrected revoke, and `AccessDaemon.AccessDaemon.QueryGroups` and `AccessDaemon.AccessDaemon.GrantAccessGroup` use the intended `query_groups` and `grant_access_group`. The as-written versions are kept beside them and compared in the Findings below.

## Findings

| source | as written | input that shows it | evidently intended | confidence | as-written member | corrected member |
|---|---|---|---|---|---|---|
| resources/access.c:385-402 | the clean-up loop walks the arch groups, which all have trees, so the `?` list is never cleaned | bob's `?` list names "Gone", whose tree was removed | groups without a tree are dropped from the answer and from the `?` list | high, not executed | AccessDatabaseProperties.StaleGroupCrashes | AccessDatabaseProperties.QueryGroupsSpec |
| resources/access.c:377-383 | the level is read only inside the Arch_full test, so without an Arch_full tree it stays 0 | a level-40 player; only an Arch_junior tree and the default tree exist | Arch_junior is given from JUNIOR_ARCH, except ELDER, when its tree exists | high, not executed | AccessDatabaseProperties.JuniorNeedsFull | AccessDatabaseProperties.LevelGroups |
| resources/access.c:1098-1108 | the fold takes the first key of the grandparent mapping and looks it up in the branch | /a/b holds `.`, x and y; revoke /a/b/y | revoking a node changes no other path's level, so the grant on /a/b/x stays | medium, not executed | AccessGrantProperties.FoldLosesEntry | AccessGrantProperties.RevokeKeepsLevels |
| resources/access.c:1092-1106 | the fold drops `.` and folds a branch left with its `*` alone into that `*` | /a/b holds `.` Read, `*` Write and y; revoke /a/b/y | only a branch holding an equal `.` and `*` is folded, so /a/b keeps Read | medium, not executed | AccessGrantProperties.FoldRaisesLevel | AccessGrantProperties.RevokeKeepsLevels |
| resources/access.c:1110-1115 | an emptied branch is deleted two levels above the removed node | /a holds b = {y} and c; revoke /a/b/y | the emptied branch is deleted from its own parent | medium, not executed | AccessGrantProperties.CleanupLosesSibling | AccessGrantProperties.RevokeKeepsSiblings |
| resources/access.c:833-851 | joining a group stores the whole `query_groups` answer, including level and arch groups, in the `?` list | an archwizard with an Arch_full tree joins Foo | only the named group is added to the `?` list | medium, not executed | AccessDatabaseProperties.LevelGroupStored | AccessDatabaseProperties.OnlyNamedGroupStored |
