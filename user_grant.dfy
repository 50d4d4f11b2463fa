/**
 * The user grant of the user-grant domain model: a user's role keys on a
 * project, with a three-valued state, and the predicates the command side
 * consults.
 */
module UserGrantModel {

  /** The state of a grant, an int32 in the source. */
  newtype UserGrantState = x: int | -0x8000_0000 <= x < 0x8000_0000

  const USER_GRANT_STATE_ACTIVE: UserGrantState := 0
  const USER_GRANT_STATE_INACTIVE: UserGrantState := 1
  const USER_GRANT_STATE_REMOVED: UserGrantState := 2

  datatype UserGrant = UserGrant(
    aggregateId: string,
    sequence: nat,
    state: UserGrantState,
    userId: string,
    projectId: string,
    roleKeys: seq<string>)

  predicate IsValid(u: UserGrant) {
    u.projectId != "" && u.userId != ""
  }

  predicate IsActive(u: UserGrant) {
    u.state == USER_GRANT_STATE_ACTIVE
  }

  predicate IsInactive(u: UserGrant) {
    u.state == USER_GRANT_STATE_INACTIVE
  }

  /** The grant every field of which holds its zero value. */
  function ZeroGrant(): UserGrant {
    UserGrant("", 0, 0, "", "", [])
  }

  /** Validity depends on the project and the user only: role keys and state do not matter. */
  lemma IsValidIgnoresRolesAndState(u: UserGrant, roleKeys: seq<string>, state: UserGrantState)
    ensures IsValid(u.(roleKeys := roleKeys, state := state)) == IsValid(u)
    ensures IsValid(u) <==> u.projectId != "" && u.userId != ""
  {
  }

  /**
   * A grant is never both active and inactive; a removed grant, and a grant in
   * any state other than the two, is neither.
   */
  lemma ActivityIsExclusive(u: UserGrant)
    ensures !(IsActive(u) && IsInactive(u))
    ensures IsActive(u) <==> u.state == USER_GRANT_STATE_ACTIVE
    ensures IsInactive(u) <==> u.state == USER_GRANT_STATE_INACTIVE
    ensures u.state == USER_GRANT_STATE_REMOVED ==> !IsActive(u) && !IsInactive(u)
    ensures u.state !in {USER_GRANT_STATE_ACTIVE, USER_GRANT_STATE_INACTIVE} ==> !IsActive(u) && !IsInactive(u)
  {
  }

  /** The states are numbered 0, 1, 2, so a zero-valued grant is active (and invalid). */
  lemma ZeroGrantIsActive()
    ensures USER_GRANT_STATE_ACTIVE == 0 && USER_GRANT_STATE_INACTIVE == 1 && USER_GRANT_STATE_REMOVED == 2
    ensures IsActive(ZeroGrant()) && !IsInactive(ZeroGrant()) && !IsValid(ZeroGrant())
  {
  }
}
