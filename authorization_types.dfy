/**
 * The types of the Go authorization package: the permission levels, the
 * three capability tests on them, the access tree a principal's raw map is
 * converted into, and the names of the privileged groups.
 */
module AuthorizationTypes {
  import opened Wrappers

  /** A Go `Permission` is a plain int: any value can occur, not only the named ones. */
  type Permission = int

  const Revoked: Permission := -1
  const Read: Permission := 1
  const GrantRead: Permission := 2
  const Write: Permission := 3
  const GrantWrite: Permission := 4
  const GrantGrant: Permission := 5

  /** The named levels from weakest to strongest. */
  const Levels: seq<Permission> := [Revoked, Read, GrantRead, Write, GrantWrite, GrantGrant]

  predicate CanRead(p: Permission)
  {
    p >= Read
  }

  predicate CanWrite(p: Permission)
  {
    p >= Write
  }

  predicate CanGrant(p: Permission)
  {
    p >= GrantGrant
  }

  /** The named levels are listed in strictly increasing order, so a later level is stronger. */
  lemma LevelsIncrease()
    ensures forall i, j :: 0 <= i < j < |Levels| ==> Levels[i] < Levels[j]
  {
  }

  /**
   * Which of the named levels pass each test: Read and above may read,
   * Write and above may write, only GrantGrant may grant.
   */
  lemma NamedLevelCapabilities(i: nat)
    requires i < |Levels|
    ensures CanRead(Levels[i]) <==> i >= 1
    ensures CanWrite(Levels[i]) <==> i >= 3
    ensures CanGrant(Levels[i]) <==> i == 5
  {
  }

  /** The capabilities nest: granting implies writing, writing implies reading, for every value. */
  lemma CapabilitiesNest(p: Permission)
    ensures CanGrant(p) ==> CanWrite(p)
    ensures CanWrite(p) ==> CanRead(p)
    ensures !CanRead(Revoked)
  {
  }

  /**
   * A node of a converted access tree: the level of the directory itself
   * (DotAccess), the default inherited below it (StarAccess) and the named
   * sub-nodes.
   */
  datatype AccessNode = AccessNode(dot: Permission, star: Permission, children: map<string, AccessNode>)

  /** A principal's tree: its root (None for a nil root) and the groups collected from its `?` lists. */
  datatype AccessTree = AccessTree(root: Option<AccessNode>, groups: seq<string>)

  const GroupArchFull := "Arch_full"
  const GroupArchJunior := "Arch_junior"
  const GroupArchDocs := "Arch_docs"
  const GroupArchQC := "Arch_qc"
  const GroupArchLaw := "Arch_law"
  const GroupArchWeb := "Arch_web"
}
