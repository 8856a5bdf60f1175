/**
 * Conversion of raw nested maps into access trees, in its two variants:
 * the converter (ConvertToAccessTrees) and the tree builder
 * (BuildAccessTrees). Both walk a principal's raw map key by key: `.` sets
 * the node's own level, an integer `*` its default and a mapping `*` a
 * child named `*`, `?` lists group names, any other key a child. They
 * differ only in a scalar named entry, which the converter turns into a
 * child whose level and default are both the value, and the builder into a
 * child with that level and a Revoked default; the builder also takes a
 * float level, truncated.
 */
module TreeConversion {
  import opened Wrappers
  import opened Strings
  import opened LpcValues
  import opened AuthorizationTypes
  import Authorizer

  /** Which of the two conversions is meant. */
  datatype Rules = ConverterRules | BuilderRules

  /** Why a principal's raw map did not convert. */
  datatype NodeError =
    | BadPermission(key: string)
    | BadGroupList
    | BadGroupName

  datatype ConversionError =
    | AccessMapMissing
    | UserTreeNotMap(user: string)
    | UserTreeInvalid(user: string, cause: NodeError)

  /** The digits before the point. */
  function IntegerDigits(body: string): (d: string)
    requires forall i :: 0 <= i < |body| ==> IsAsciiDigit(body[i]) || body[i] == '.'
    ensures forall i :: 0 <= i < |d| ==> IsAsciiDigit(d[i])
    decreases |body|
  {
    if |body| == 0 || body[0] == '.' then "" else [body[0]] + IntegerDigits(body[1..])
  }

  /** A float literal's value truncated toward zero, as Go's int conversion of it. */
  function TruncateFloat(t: string): int
    requires IsFloatLiteral(t)
  {
    var magnitude: int := DecimalValue(IntegerDigits(FloatBody(t)));
    if |t| > 0 && t[0] == '-' then -magnitude else magnitude
  }

  /** convertToPermission (an integer) and parsePermission (an integer or a float). */
  function PermissionOf(rules: Rules, v: Value): (r: Option<Permission>)
    ensures rules == ConverterRules ==> (r.Some? <==> v.VInt?)
    ensures v.VInt? ==> r == Some(v.i)
  {
    match v
    case VInt(i) => Some(i)
    case VFloat(t) => if rules == BuilderRules && IsFloatLiteral(t) then Some(TruncateFloat(t)) else None
    case _ => None
  }

  /** The sub-node a scalar named entry becomes. */
  function ScalarChild(rules: Rules, p: Permission): AccessNode
  {
    match rules
    case ConverterRules => AccessNode(p, p, map[])
    case BuilderRules => AccessNode(p, Revoked, map[])
  }

  /** Whether key names a child of the node: `.` and `?` never do, `*` only when it holds a mapping. */
  predicate IsChildKey(key: string, value: Value)
  {
    key != "." && key != "?" && (key != "*" || value.VMap?)
  }

  predicate IsGroupList(value: Value)
  {
    value.VList? && forall i :: 0 <= i < |value.items| ==> value.items[i].VString?
  }

  /** Whether every entry of a raw mapping, recursively, has the shape its key demands. */
  predicate Convertible(rules: Rules, v: Value)
    decreases v, 1
  {
    v.VMap? && forall key :: key in v.entries ==> EntryConvertible(rules, key, v.entries[key])
  }

  predicate EntryConvertible(rules: Rules, key: string, value: Value)
    decreases value, 2
  {
    if key == "." then PermissionOf(rules, value).Some?
    else if key == "?" then IsGroupList(value)
    else if value.VMap? then Convertible(rules, value)
    else PermissionOf(rules, value).Some?
  }

  /** The sub-node an accepted child entry becomes. */
  function ChildNode(rules: Rules, key: string, value: Value): AccessNode
    requires IsChildKey(key, value) && EntryConvertible(rules, key, value)
    decreases value, 2
  {
    if value.VMap? then SpecNode(rules, value) else ScalarChild(rules, LevelOf(rules, value))
  }

  /** The node built from the entries of v whose keys are in done. */
  function PartialNode(rules: Rules, v: Value, done: set<string>): AccessNode
    requires v.VMap? && done <= v.entries.Keys
    requires forall key :: key in done ==> EntryConvertible(rules, key, v.entries[key])
    decreases v, 0
  {
    var e := v.entries;
    var dot := if "." in done then LevelOf(rules, e["."]) else Revoked;
    var star := if "*" in done && !e["*"].VMap? then LevelOf(rules, e["*"]) else Revoked;
    AccessNode(dot, star, map key | key in done && IsChildKey(key, e[key]) :: ChildNode(rules, key, e[key]))
  }

  /** The level a `.` entry, a scalar `*` entry or a scalar child entry carries (Revoked when it is none). */
  function LevelOf(rules: Rules, value: Value): Permission
  {
    match PermissionOf(rules, value)
    case Some(p) => p
    case None => Revoked
  }

  /** The node a convertible raw mapping becomes. */
  function SpecNode(rules: Rules, v: Value): AccessNode
    requires Convertible(rules, v)
    decreases v, 1
  {
    PartialNode(rules, v, v.entries.Keys)
  }

  /** The names of a list of strings, in order. */
  function ListNames(items: seq<Value>): (names: seq<string>)
    requires forall i :: 0 <= i < |items| ==> items[i].VString?
    ensures |names| == |items| && forall i :: 0 <= i < |items| ==> names[i] == items[i].s
  {
    seq(|items|, i requires 0 <= i < |items| => items[i].s)
  }

  /** The group names an entry contributes: the names of a `?` list, or those collected below a mapping. */
  function EntryGroups(key: string, value: Value): set<string>
    decreases value, 2
  {
    if key == "?" then (if IsGroupList(value) then set g | g in ListNames(value.items) else {})
    else if value.VMap? then GroupSet(value)
    else {}
  }

  function GroupsOfKeys(v: Value, done: set<string>): set<string>
    requires v.VMap?
    decreases v, 0
  {
    set key, g | key in done && key in v.entries && g in EntryGroups(key, v.entries[key]) :: g
  }

  /** Every group name found anywhere in a raw mapping. */
  function GroupSet(v: Value): set<string>
    requires v.VMap?
    decreases v, 1
  {
    GroupsOfKeys(v, v.entries.Keys)
  }

  /** The names of the node's own `?` list, in order. */
  function RootGroups(v: Value): seq<string>
    requires v.VMap?
  {
    if "?" in v.entries && IsGroupList(v.entries["?"]) then ListNames(v.entries["?"].items) else []
  }

  /** Whether no mapping below the node carries groups. */
  predicate NoNestedGroups(v: Value)
    requires v.VMap?
  {
    forall key :: key in v.entries && v.entries[key].VMap? ==> GroupSet(v.entries[key]) == {}
  }

  lemma EmptySetEmptySeq(s: seq<string>)
    ensures (set g | g in s) == {} <==> s == []
  {
    if |s| > 0 {
      var st := set g | g in s;
      assert s[0] in st;
    }
  }

  lemma SetOfAppend(a: seq<string>, b: seq<string>)
    ensures (set g | g in a + b) == (set g | g in a) + (set g | g in b)
  {
  }

  /**
   * convertToAccessNode and buildAccessNode. The keys are visited in an
   * unspecified order, so the contract holds for every order: it fails
   * exactly on an ill-shaped entry, and otherwise yields the specified node
   * and every group name found (in the `?` list's own order when no
   * mapping below carries groups).
   */
  method ConvertNode(rules: Rules, v: Value) returns (r: Result<(AccessNode, seq<string>), NodeError>)
    requires v.VMap?
    ensures r.Success? <==> Convertible(rules, v)
    ensures r.Success? ==> r.value.0 == SpecNode(rules, v)
    ensures r.Success? ==> (set g | g in r.value.1) == GroupSet(v)
    ensures r.Success? && NoNestedGroups(v) ==> r.value.1 == RootGroups(v)
    decreases v, 0
  {
    var e := v.entries;
    var node := AccessNode(Revoked, Revoked, map[]);
    var groups: seq<string> := [];
    var todo := e.Keys;
    var done: set<string> := {};
    while todo != {}
      invariant todo + done == e.Keys && todo !! done
      invariant forall key :: key in done ==> EntryConvertible(rules, key, e[key])
      invariant node == PartialNode(rules, v, done)
      invariant (set g | g in groups) == GroupsOfKeys(v, done)
      invariant NoNestedGroups(v) ==> groups == if "?" in done then RootGroups(v) else []
      decreases todo
    {
      var key :| key in todo;
      var step := ConvertEntry(rules, key, e[key], node, groups);
      if step.Failure? {
        return Failure(step.error);
      }
      PartialNodeAdd(rules, v, done, key);
      GroupsStep(v, done, key, groups, step.value.1);
      node, groups := step.value.0, step.value.1;
      todo := todo - {key};
      done := done + {key};
    }
    return Success((node, groups));
  }

  /** One pass of the key loop: the entry key/value taken into node and groups. */
  method ConvertEntry(rules: Rules, key: string, value: Value, node: AccessNode, groups: seq<string>)
    returns (r: Result<(AccessNode, seq<string>), NodeError>)
    ensures r.Success? <==> EntryConvertible(rules, key, value)
    ensures r.Success? ==> r.value.0 == AddEntry(rules, node, key, value)
    ensures r.Success? ==> (set g | g in r.value.1) == (set g | g in groups) + EntryGroups(key, value)
    ensures r.Success? && key == "?" ==> r.value.1 == groups + ListNames(value.items)
    ensures r.Success? && key != "?" && EntryGroups(key, value) == {} ==> r.value.1 == groups
    decreases value, 1
  {
    if key == "." {
      var perm := PermissionOf(rules, value);
      if perm.None? {
        return Failure(BadPermission(key));
      }
      return Success((node.(dot := perm.value), groups));
    } else if key == "*" && value.VMap? {
      var child := ConvertNode(rules, value);
      if child.Failure? {
        return Failure(child.error);
      }
      SetOfAppend(groups, child.value.1);
      EmptySetEmptySeq(child.value.1);
      return Success((node.(children := node.children[key := child.value.0]), groups + child.value.1));
    } else if key == "*" {
      var perm := PermissionOf(rules, value);
      if perm.None? {
        return Failure(BadPermission(key));
      }
      return Success((node.(star := perm.value), groups));
    } else if key == "?" {
      if !value.VList? {
        return Failure(BadGroupList);
      }
      var names := CollectGroupNames(value.items);
      if names.None? {
        return Failure(BadGroupName);
      }
      SetOfAppend(groups, names.value);
      return Success((node, groups + names.value));
    } else if value.VMap? {
      var child := ConvertNode(rules, value);
      if child.Failure? {
        return Failure(child.error);
      }
      var collected := groups;
      if |child.value.1| > 0 {
        collected := collected + child.value.1;
      }
      SetOfAppend(groups, child.value.1);
      EmptySetEmptySeq(child.value.1);
      return Success((node.(children := node.children[key := child.value.0]), collected));
    } else {
      var perm := PermissionOf(rules, value);
      if perm.None? {
        return Failure(BadPermission(key));
      }
      return Success((node.(children := node.children[key := ScalarChild(rules, perm.value)]), groups));
    }
  }

  /** The `?` loop: every item must be a string; the names come out in list order. */
  method CollectGroupNames(items: seq<Value>) returns (r: Option<seq<string>>)
    ensures r.Some? <==> forall i :: 0 <= i < |items| ==> items[i].VString?
    ensures r.Some? ==> r.value == ListNames(items)
  {
    var names: seq<string> := [];
    var i := 0;
    while i < |items|
      invariant 0 <= i <= |items|
      invariant forall j :: 0 <= j < i ==> items[j].VString?
      invariant |names| == i && forall j :: 0 <= j < i ==> names[j] == items[j].s
    {
      if !items[i].VString? {
        return None;
      }
      names := names + [items[i].s];
      i := i + 1;
    }
    return Some(names);
  }

  /** The node after one more entry has been taken in. */
  function AddEntry(rules: Rules, node: AccessNode, key: string, value: Value): AccessNode
    requires EntryConvertible(rules, key, value)
  {
    if key == "." then node.(dot := LevelOf(rules, value))
    else if key == "?" then node
    else if key == "*" && !value.VMap? then node.(star := LevelOf(rules, value))
    else node.(children := node.children[key := ChildNode(rules, key, value)])
  }

  lemma PartialNodeAdd(rules: Rules, v: Value, done: set<string>, key: string)
    requires v.VMap? && done <= v.entries.Keys && key in v.entries && key !in done
    requires forall k :: k in done ==> EntryConvertible(rules, k, v.entries[k])
    requires EntryConvertible(rules, key, v.entries[key])
    ensures PartialNode(rules, v, done + {key}) == AddEntry(rules, PartialNode(rules, v, done), key, v.entries[key])
  {
    var a := PartialNode(rules, v, done + {key});
    var b := AddEntry(rules, PartialNode(rules, v, done), key, v.entries[key]);
    assert a.children == b.children;
  }

  /** The group-set invariant after one more key. */
  lemma GroupsStep(v: Value, done: set<string>, key: string, before: seq<string>, after: seq<string>)
    requires v.VMap? && key in v.entries && key !in done
    requires (set g | g in before) == GroupsOfKeys(v, done)
    requires (set g | g in after) == (set g | g in before) + EntryGroups(key, v.entries[key])
    ensures (set g | g in after) == GroupsOfKeys(v, done + {key})
  {
  }

  /** Whether raw data holds an `access_map` mapping whose every principal's tree converts. */
  predicate AccessMapConvertible(rules: Rules, raw: map<string, Value>)
  {
    && "access_map" in raw && raw["access_map"].VMap?
    && forall user :: user in raw["access_map"].entries ==> Convertible(rules, raw["access_map"].entries[user])
  }

  /** The tree of one principal, as convertToAccessTree and buildAccessTree return it. */
  predicate IsTreeOf(rules: Rules, raw: Value, tree: AccessTree)
    requires Convertible(rules, raw)
  {
    && tree.root == Some(SpecNode(rules, raw))
    && (set g | g in tree.groups) == GroupSet(raw)
    && (NoNestedGroups(raw) ==> tree.groups == RootGroups(raw))
  }

  /**
   * ConvertToAccessTrees and BuildAccessTrees: one tree per principal of
   * `access_map`, visited in an unspecified order; fails when `access_map`
   * is missing or not a mapping, or when any principal's tree does not convert.
   */
  method ConvertTrees(rules: Rules, raw: map<string, Value>) returns (r: Result<map<string, AccessTree>, ConversionError>)
    ensures r.Success? <==> AccessMapConvertible(rules, raw)
    ensures r == Failure(AccessMapMissing) <==> !("access_map" in raw && raw["access_map"].VMap?)
    ensures r.Success? ==> r.value.Keys == raw["access_map"].entries.Keys
    ensures r.Success? ==> forall user :: user in r.value ==> IsTreeOf(rules, raw["access_map"].entries[user], r.value[user])
  {
    if !("access_map" in raw && raw["access_map"].VMap?) {
      return Failure(AccessMapMissing);
    }
    var accessMap := raw["access_map"].entries;
    var result: map<string, AccessTree> := map[];
    var todo := accessMap.Keys;
    while todo != {}
      invariant todo + result.Keys == accessMap.Keys && todo !! result.Keys
      invariant forall user :: user in result ==> Convertible(rules, accessMap[user])
      invariant forall user :: user in result ==> IsTreeOf(rules, accessMap[user], result[user])
      decreases todo
    {
      var user :| user in todo;
      var rawUserTree := accessMap[user];
      if !rawUserTree.VMap? {
        return Failure(UserTreeNotMap(user));
      }
      var converted := ConvertNode(rules, rawUserTree);
      if converted.Failure? {
        return Failure(UserTreeInvalid(user, converted.error));
      }
      result := result[user := AccessTree(Some(converted.value.0), converted.value.1)];
      todo := todo - {user};
    }
    return Success(result);
  }

  method ConvertToAccessTrees(raw: map<string, Value>) returns (r: Result<map<string, AccessTree>, ConversionError>)
    ensures r.Success? <==> AccessMapConvertible(ConverterRules, raw)
    ensures r.Success? ==> r.value.Keys == raw["access_map"].entries.Keys
    ensures r.Success? ==> forall user :: user in r.value ==> IsTreeOf(ConverterRules, raw["access_map"].entries[user], r.value[user])
  {
    r := ConvertTrees(ConverterRules, raw);
  }

  method BuildAccessTrees(raw: map<string, Value>) returns (r: Result<map<string, AccessTree>, ConversionError>)
    ensures r.Success? <==> AccessMapConvertible(BuilderRules, raw)
    ensures r.Success? ==> r.value.Keys == raw["access_map"].entries.Keys
    ensures r.Success? ==> forall user :: user in r.value ==> IsTreeOf(BuilderRules, raw["access_map"].entries[user], r.value[user])
  {
    r := ConvertTrees(BuilderRules, raw);
  }

  lemma ChildOfSpecNode(rules: Rules, v: Value, key: string)
    requires Convertible(rules, v) && key in v.entries && IsChildKey(key, v.entries[key])
    ensures key in SpecNode(rules, v).children
    ensures v.entries[key].VMap? ==> (Convertible(rules, v.entries[key])
      && SpecNode(rules, v).children[key] == SpecNode(rules, v.entries[key]))
    ensures !v.entries[key].VMap? ==> SpecNode(rules, v).children[key] == ScalarChild(rules, LevelOf(rules, v.entries[key]))
  {
    assert EntryConvertible(rules, key, v.entries[key]);
    var n := PartialNode(rules, v, v.entries.Keys);
    assert n.children[key] == ChildNode(rules, key, v.entries[key]);
  }

  /** A mapping without entries becomes a node with Revoked level and default and no children. */
  lemma EmptyMapNode(rules: Rules)
    ensures Convertible(rules, VMap(map[]))
    ensures SpecNode(rules, VMap(map[])) == AccessNode(Revoked, Revoked, map[])
  {
  }

  /**
   * How each kind of key lands in the node: `.` sets its level, a scalar
   * `*` its default, a mapping `*` and every other key except `?` a child.
   */
  lemma SpecNodeFields(rules: Rules, v: Value)
    requires Convertible(rules, v)
    ensures var n := SpecNode(rules, v); var e := v.entries;
      && n.dot == (if "." in e then LevelOf(rules, e["."]) else Revoked)
      && n.star == (if "*" in e && !e["*"].VMap? then LevelOf(rules, e["*"]) else Revoked)
      && (forall key :: key in n.children <==> key in e && IsChildKey(key, e[key]))
      && ("*" in n.children <==> "*" in e && e["*"].VMap?)
      && "." !in n.children && "?" !in n.children
  {
  }

  /**
   * A scalar named entry: the converter grants its value to the entry and
   * to everything below it, the builder only to the entry itself.
   */
  lemma ScalarEntryLevels(rules: Rules, v: Value, key: string, rest: seq<string>)
    requires Convertible(rules, v) && key in v.entries
    requires IsChildKey(key, v.entries[key]) && !v.entries[key].VMap?
    ensures var p := LevelOf(rules, v.entries[key]);
      Authorizer.CheckNodePermission(Some(SpecNode(rules, v)), [key] + rest)
      == if rules == ConverterRules || rest == [] then p else Revoked
  {
    ChildOfSpecNode(rules, v, key);
    assert ([key] + rest)[1..] == rest;
  }

  /** A segment that names no child falls to the node's scalar `*`, or Revoked without one. */
  lemma UnmatchedSegmentLevel(rules: Rules, v: Value, parts: seq<string>)
    requires Convertible(rules, v) && |parts| > 0
    requires !(parts[0] in v.entries && IsChildKey(parts[0], v.entries[parts[0]]))
    ensures Authorizer.CheckNodePermission(Some(SpecNode(rules, v)), parts)
            == if "*" in v.entries && !v.entries["*"].VMap? then LevelOf(rules, v.entries["*"]) else Revoked
  {
    SpecNodeFields(rules, v);
  }

  /** Whether the path goes on below a scalar entry of the raw mapping. */
  predicate PassesBelowScalar(v: Value, parts: seq<string>)
    requires v.VMap?
    decreases |parts|
  {
    && |parts| >= 2 && parts[0] in v.entries && IsChildKey(parts[0], v.entries[parts[0]])
    && (v.entries[parts[0]].VMap? ==> PassesBelowScalar(v.entries[parts[0]], parts[1..]))
  }

  /** Every raw map the converter accepts, the builder accepts too. */
  lemma {:induction false} ConverterInputsBuild(v: Value)
    requires Convertible(ConverterRules, v)
    ensures Convertible(BuilderRules, v)
    decreases v
  {
    forall key | key in v.entries
      ensures EntryConvertible(BuilderRules, key, v.entries[key])
    {
      assert EntryConvertible(ConverterRules, key, v.entries[key]);
      if key != "." && key != "?" && v.entries[key].VMap? {
        ConverterInputsBuild(v.entries[key]);
      }
    }
  }

  /**
   * The converter and the builder answer alike for every path that does
   * not go on below a scalar entry.
   */
  lemma {:induction false} ConverterBuilderAgree(v: Value, parts: seq<string>)
    requires Convertible(ConverterRules, v)
    requires !PassesBelowScalar(v, parts)
    ensures Convertible(BuilderRules, v)
    ensures Authorizer.CheckNodePermission(Some(SpecNode(ConverterRules, v)), parts)
            == Authorizer.CheckNodePermission(Some(SpecNode(BuilderRules, v)), parts)
    decreases |parts|
  {
    ConverterInputsBuild(v);
    SpecNodeFields(ConverterRules, v);
    SpecNodeFields(BuilderRules, v);
    var c := SpecNode(ConverterRules, v);
    var b := SpecNode(BuilderRules, v);
    if "." in v.entries {
      assert EntryConvertible(ConverterRules, ".", v.entries["."]);
    }
    if "*" in v.entries && !v.entries["*"].VMap? {
      assert EntryConvertible(ConverterRules, "*", v.entries["*"]);
    }
    if |parts| > 0 && parts[0] in c.children {
      var key := parts[0];
      var value := v.entries[key];
      assert EntryConvertible(ConverterRules, key, value);
      ChildOfSpecNode(ConverterRules, v, key);
      ChildOfSpecNode(BuilderRules, v, key);
      if value.VMap? {
        ConverterBuilderAgree(value, parts[1..]);
      } else {
        assert |parts| == 1;
      }
    }
  }
}
