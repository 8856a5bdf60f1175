/**
 * The access trees of the LPC access daemon and one step of their lazy
 * evaluation (`eval_map`). A tree is a nested LPC mapping: an entry holds
 * either an access level or a further mapping; the keys "." and "*" hold the
 * level of the subtree root itself and the default for what lies below.
 * An LPC mapping cannot hold 0, so an absent entry reads as level 0.
 */
module AccessTrees {
  import opened Wrappers

  datatype Node = Leaf(level: int) | Branch(entries: map<string, Node>)

  type Entries = map<string, Node>

  /** `m[k]`: the entry, or 0 when it is absent. */
  function Get(m: Entries, k: string): (n: Node)
    ensures k !in m ==> n == Leaf(0)
  {
    if k in m then m[k] else Leaf(0)
  }

  /** `m[k]` read as a level: 0 when absent (an entry holding a mapping is not read as a level here). */
  function LevelAt(m: Entries, k: string): int
  {
    match Get(m, k)
    case Leaf(v) => v
    case Branch(_) => 0
  }

  /** The default level a mapping gives its children. */
  function Star(m: Entries): int
  {
    LevelAt(m, "*")
  }

  /** The level a mapping gives its own root. */
  function Dot(m: Entries): int
  {
    LevelAt(m, ".")
  }

  /** No entry anywhere holds 0: what every mapping the daemon builds satisfies. */
  predicate Canonical(m: Entries)
  {
    forall k :: k in m ==> CanonicalNode(m[k])
  }

  predicate CanonicalNode(n: Node)
  {
    match n
    case Leaf(v) => v != 0
    case Branch(m) => forall k :: k in m ==> CanonicalNode(m[k])
  }

  /**
   * A map's state in the lazy evaluator: the level it yields for the segment
   * just read, and the mapping to read the next segment in, if the map is
   * not exhausted.
   */
  datatype Eval = Eval(acc: int, cursor: Option<Entries>)

  /**
   * `eval_map` on one map: part is the segment, cursor the map's current
   * mapping (None once exhausted), dfl the level the map yielded for the
   * previous segment, final whether part is the last segment.
   */
  function EvalStep(part: string, cursor: Option<Entries>, dfl: int, final: bool): (r: Eval)
    ensures r.cursor.Some? ==> cursor.Some? && part in cursor.value && cursor.value[part] == Branch(r.cursor.value)
  {
    if cursor.None? then Eval(dfl, None)
    else
      var m := cursor.value;
      match Get(m, part)
      case Leaf(v) =>
        if v != 0 then Eval(v, None)
        else Eval(if Star(m) != 0 then Star(m) else dfl, None)
      case Branch(b) =>
        var acc :=
          if dfl == 0 then Star(b)
          else if final && Dot(b) != 0 then Dot(b)
          else if !final && Star(b) != 0 then Star(b)
          else dfl;
        Eval(acc, Some(b))
  }

  /** `eval_map(part, list, idx, dfl, final)`: list[idx] is replaced by the map's next cursor. */
  method EvalMap(part: string, list: array<Option<Entries>>, idx: int, dfl: int, final: bool) returns (acc: int)
    requires 0 <= idx < list.Length
    modifies list
    ensures Eval(acc, list[idx]) == EvalStep(part, old(list[idx]), dfl, final)
    ensures forall k :: 0 <= k < list.Length && k != idx ==> list[k] == old(list[k])
  {
    var cur := list[idx];
    if cur.None? {
      return dfl;
    }
    var m := cur.value;
    acc := Star(m);
    if acc == 0 {
      acc := dfl;
    }
    var v := Get(m, part);
    if v != Leaf(0) {
      match v
      case Leaf(level) =>
        acc := level;
        list[idx] := None;
      case Branch(b) =>
        if dfl == 0 {
          acc := Star(b);
        } else if final && Dot(b) != 0 {
          acc := Dot(b);
        } else if !final && Star(b) != 0 {
          acc := Star(b);
        } else {
          acc := dfl;
        }
        list[idx] := Some(b);
    } else {
      list[idx] := None;
    }
  }

  /** An exhausted map yields the level it had, whatever the segment. */
  lemma ExhaustedKeeps(part: string, dfl: int, final: bool)
    ensures EvalStep(part, None, dfl, final) == Eval(dfl, None)
  {
  }

  /** A segment that names a leaf yields the leaf's level and ends the map. */
  lemma LeafEnds(part: string, m: Entries, dfl: int, final: bool)
    requires LevelAt(m, part) != 0
    ensures EvalStep(part, Some(m), dfl, final) == Eval(m[part].level, None)
  {
  }

  /** A segment the map does not name yields the map's `*`, else the inherited level, and ends the map. */
  lemma UnnamedEnds(part: string, m: Entries, dfl: int, final: bool)
    requires part !in m
    ensures EvalStep(part, Some(m), dfl, final) == Eval(if Star(m) != 0 then Star(m) else dfl, None)
  {
  }

  /**
   * A segment that names a branch moves into it. Its level is, in this order:
   * its `*` when nothing was inherited; its `.` on the last segment; its `*`
   * on an inner segment; else the inherited level. The map's own `*` plays no
   * part.
   */
  lemma BranchChoice(part: string, m: Entries, b: Entries, dfl: int, final: bool)
    requires part in m && m[part] == Branch(b)
    ensures var r := EvalStep(part, Some(m), dfl, final);
      && r.cursor == Some(b)
      && (dfl == 0 ==> r.acc == Star(b))
      && (dfl != 0 && final && Dot(b) != 0 ==> r.acc == Dot(b))
      && (dfl != 0 && !final && Star(b) != 0 ==> r.acc == Star(b))
      && (dfl != 0 && (if final then Dot(b) else Star(b)) == 0 ==> r.acc == dfl)
      && (part != "*" ==> EvalStep(part, Some(m["*" := Leaf(Star(m) + 1)]), dfl, final).acc == r.acc)
  {
    if part != "*" {
      var m' := m["*" := Leaf(Star(m) + 1)];
      assert Get(m', part) == Branch(b);
    }
  }
}
