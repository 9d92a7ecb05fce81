/** The role and ownership guards of src/middleware/authorize.js, each a total
    function from the request's identity (or none) to allow or an error. */
module Authorize {
  import opened Common

  const AuthenticationRequired := "You must be logged in to access this resource"
  const NoPermission := "You do not have permission to access this resource"
  const AdminAccessRequired := "Admin access required"
  const OwnershipNotConfigured := "Resource ownership check not configured"
  const OwnResourcesOnly := "You can only modify your own resources"

  /** `next()` or a response with an error status. */
  datatype Decision = Allow | Deny(error: Error)

  /** JavaScript falsiness of `req.resourceOwnerId`: unset, or the number 0. */
  predicate OwnerFalsy(owner: Option<int>) {
    owner.None? || owner.value == 0
  }

  /** `authorizeRole(...roles)`: authentication, then plain membership of the
      caller's role in the list; ADMIN gets no implicit pass. */
  function AuthorizeRole(caller: Option<Identity>, roles: seq<Role>): (d: Decision)
    ensures caller.None? ==> d == Deny(Unauthenticated(AuthenticationRequired))
    ensures caller.Some? ==> (d == Allow <==> caller.value.role in roles)
    ensures caller.Some? && d != Allow ==> d == Deny(Forbidden(NoPermission))
  {
    if caller.None? then Deny(Unauthenticated(AuthenticationRequired))
    else if caller.value.role !in roles then Deny(Forbidden(NoPermission))
    else Allow
  }

  /** `requireAdmin`. */
  function RequireAdmin(caller: Option<Identity>): (d: Decision)
    ensures caller.None? ==> d == Deny(Unauthenticated(AuthenticationRequired))
    ensures caller.Some? && caller.value.role != Admin ==> d == Deny(Forbidden(AdminAccessRequired))
    ensures d == Allow <==> caller.Some? && caller.value.role == Admin
  {
    if caller.None? then Deny(Unauthenticated(AuthenticationRequired))
    else if caller.value.role != Admin then Deny(Forbidden(AdminAccessRequired))
    else Allow
  }

  /** `requireOwnershipOrAdmin`, with `req.resourceOwnerId` as `owner`. The
      checks run in the source's order: authentication, ADMIN pass, a missing
      owner (a configuration fault, 500), then the owner comparison. */
  function RequireOwnershipOrAdmin(caller: Option<Identity>, owner: Option<int>): (d: Decision)
    ensures caller.None? ==> d == Deny(Unauthenticated(AuthenticationRequired))
    ensures caller.Some? && caller.value.role == Admin ==> d == Allow
    ensures caller.Some? && caller.value.role != Admin && OwnerFalsy(owner) ==>
      d == Deny(ServerError(OwnershipNotConfigured))
    ensures caller.Some? && caller.value.role != Admin && !OwnerFalsy(owner) ==>
      d == (if owner.value == caller.value.userId then Allow else Deny(Forbidden(OwnResourcesOnly)))
  {
    if caller.None? then Deny(Unauthenticated(AuthenticationRequired))
    else if caller.value.role == Admin then Allow
    else if OwnerFalsy(owner) then Deny(ServerError(OwnershipNotConfigured))
    else if owner.value != caller.value.userId then Deny(Forbidden(OwnResourcesOnly))
    else Allow
  }

  /** Two decisions agree when both allow, or both deny with the same status
      (the messages differ from guard to guard). */
  predicate SameVerdict(d: Decision, e: Decision) {
    (d.Allow? && e.Allow?) || (d.Deny? && e.Deny? && d.error.Status() == e.error.Status())
  }

  /** The access rule the service is designed around: authentication first;
      then a required role, which ADMIN always satisfies; then, for an
      ownership-scoped operation, owner equality, which ADMIN bypasses. */
  function DesignedDecision(caller: Option<Identity>, requiredRole: Option<Role>, owner: Option<int>): (d: Decision)
    ensures caller.Some? && caller.value.role == Admin ==> d == Allow
    ensures caller.None? ==> d.Deny? && d.error.Unauthenticated?
  {
    if caller.None? then Deny(Unauthenticated(AuthenticationRequired))
    else if requiredRole.Some? && caller.value.role != requiredRole.value && caller.value.role != Admin then
      Deny(Forbidden(NoPermission))
    else if owner.Some? && caller.value.role != Admin && caller.value.userId != owner.value then
      Deny(Forbidden(OwnResourcesOnly))
    else Allow
  }

  /** `requireAdmin` is `authorizeRole('ADMIN')` up to its message, and both
      agree with the designed rule for a required ADMIN role. */
  lemma RequireAdminIsAuthorizeRoleAdmin(caller: Option<Identity>)
    ensures SameVerdict(RequireAdmin(caller), AuthorizeRole(caller, [Admin]))
    ensures SameVerdict(RequireAdmin(caller), DesignedDecision(caller, Some(Admin), None))
  {
  }

  /** Where `authorizeRole` departs from the designed rule: an ADMIN caller is
      refused by a role list that does not name ADMIN. */
  lemma AuthorizeRoleHasNoAdminBypass(caller: Identity, roles: seq<Role>)
    requires caller.role == Admin && Admin !in roles
    ensures AuthorizeRole(Some(caller), roles) == Deny(Forbidden(NoPermission))
    ensures |roles| > 0 ==> DesignedDecision(Some(caller), Some(roles[0]), None) == Allow
  {
  }

  /** With a truthy owner the ownership guard is exactly the designed rule
      for an ownership-scoped operation. */
  lemma OwnershipGuardMatchesDesign(caller: Option<Identity>, owner: int)
    requires owner != 0
    ensures SameVerdict(RequireOwnershipOrAdmin(caller, Some(owner)), DesignedDecision(caller, None, Some(owner)))
  {
  }

  /** The authentication check comes first: without a caller every guard
      answers 401, whatever the roles or the owner. */
  lemma AuthenticationPrecedesOtherChecks(roles: seq<Role>, owner: Option<int>)
    ensures AuthorizeRole(None, roles).error.Status() == 401
    ensures RequireAdmin(None).error.Status() == 401
    ensures RequireOwnershipOrAdmin(None, owner).error.Status() == 401
  {
  }
}
