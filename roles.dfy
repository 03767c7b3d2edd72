/**
 * The role checks of the `useRoles` front-end hook: `includes`, `some` and
 * `every` over the role names of the signed-in user.
 */
module Roles {

  /** The signed-in user as the front end sees it: an id and role names. */
  datatype AuthUser = AuthUser(id: int, roles: seq<string>)

  /** `hasRole(user, role)`: `user.roles.includes(role)`. */
  predicate HasRole(user: AuthUser, role: string) {
    role in user.roles
  }

  /** `hasAnyRole(user, roles)`: `roles.some(...)`, scanning from the front. */
  function HasAnyRole(user: AuthUser, roles: seq<string>): (r: bool)
    ensures r <==> exists i :: 0 <= i < |roles| && HasRole(user, roles[i])
    decreases |roles|
  {
    if |roles| == 0 then false
    else HasRole(user, roles[0]) || HasAnyRole(user, roles[1..])
  }

  /** `hasAllRoles(user, roles)`: `roles.every(...)`, scanning from the front. */
  function HasAllRoles(user: AuthUser, roles: seq<string>): (r: bool)
    ensures r <==> forall i :: 0 <= i < |roles| ==> HasRole(user, roles[i])
    decreases |roles|
  {
    if |roles| == 0 then true
    else HasRole(user, roles[0]) && HasAllRoles(user, roles[1..])
  }

  /** With no roles asked for, `some` is false and `every` is vacuously true. */
  lemma EmptyRoleList(user: AuthUser)
    ensures !HasAnyRole(user, []) && HasAllRoles(user, [])
  {
  }

  /** On a non-empty list, having all the roles implies having one of them. */
  lemma AllRolesImpliesAnyRole(user: AuthUser, roles: seq<string>)
    requires |roles| > 0 && HasAllRoles(user, roles)
    ensures HasAnyRole(user, roles)
  {
    assert HasRole(user, roles[0]);
  }

  /** A one-element list reduces both checks to `hasRole`. */
  lemma SingletonRoleList(user: AuthUser, role: string)
    ensures HasAnyRole(user, [role]) == HasRole(user, role)
    ensures HasAllRoles(user, [role]) == HasRole(user, role)
  {
  }
}
