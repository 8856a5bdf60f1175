/**
 * The access levels of the LPC access daemon, their names as `str_type`
 * prints them, and the player levels the daemon compares against.
 */
module AccessLevels {
  import opened Wrappers

  /** Granting NO_ACCESS removes a node; a mapping entry of 0 is an absent entry. */
  const NoAccess: int := 0
  const Revoked: int := -1
  const Read: int := 1
  const GrantRead: int := 2
  const Write: int := 3
  const GrantWrite: int := 4
  const GrantGrant: int := 5

  /** Player levels (the mudlib's levels.h is not part of this model; these are the values the Go port uses). */
  const JuniorArch: int := 40
  const Elder: int := 42
  const Archwizard: int := 45

  /** The seven values `grant_access` accepts as an access type. */
  predicate IsAccessType(t: int)
  {
    NoAccess <= t <= GrantGrant || t == Revoked
  }

  /** `str_type`: the name of an access type, nil (None) for any other value. */
  function StrType(t: int): (r: Option<string>)
    ensures r.Some? <==> IsAccessType(t)
  {
    if t == NoAccess then Some("no-access")
    else if t == Revoked then Some("revoked")
    else if t == Read then Some("read")
    else if t == GrantRead then Some("grant-read")
    else if t == Write then Some("write")
    else if t == GrantWrite then Some("grant-write")
    else if t == GrantGrant then Some("grant")
    else None
  }

  /** Reading a name back: the inverse of `str_type` on the names it produces. */
  function TypeOfName(name: string): Option<int>
  {
    if name == "no-access" then Some(NoAccess)
    else if name == "revoked" then Some(Revoked)
    else if name == "read" then Some(Read)
    else if name == "grant-read" then Some(GrantRead)
    else if name == "write" then Some(Write)
    else if name == "grant-write" then Some(GrantWrite)
    else if name == "grant" then Some(GrantGrant)
    else None
  }

  /** Every access type has its own name: the name determines the type. */
  lemma StrTypeNamesBack(t: int)
    requires IsAccessType(t)
    ensures TypeOfName(StrType(t).value) == Some(t)
  {
  }

  /** Two access types with the same name are the same type. */
  lemma StrTypeInjective(a: int, b: int)
    requires IsAccessType(a) && IsAccessType(b) && StrType(a) == StrType(b)
    ensures a == b
  {
    StrTypeNamesBack(a);
    StrTypeNamesBack(b);
  }

  /**
   * The access types a granter must hold to grant t (the reqtype table of
   * `grant_access`): the three grant levels for no-access, revoked and read,
   * grant-write or grant for grant-read and write, only grant above that.
   */
  function RequiredToGrant(t: int): (req: set<int>)
    requires IsAccessType(t)
    ensures req != {} && req <= {GrantRead, GrantWrite, GrantGrant}
    ensures GrantGrant in req
    ensures GrantRead in req <==> t <= Read
    ensures GrantWrite in req <==> t <= Write
  {
    if t == NoAccess || t == Revoked || t == Read then {GrantRead, GrantWrite, GrantGrant}
    else if t == GrantRead || t == Write then {GrantWrite, GrantGrant}
    else {GrantGrant}
  }
}
