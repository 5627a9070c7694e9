/** The role gate `authorize(...roles)` (authorization.middleware.ts): a
    request passes when its authenticated user's role is one of the
    allowed roles. */
module Authorization {
  import opened Common

  /** `roles.includes(role)`. */
  function Includes(roles: seq<Role>, role: Role): (b: bool)
    ensures b <==> role in roles
  {
    if roles == [] then false
    else roles[0] == role || Includes(roles[1..], role)
  }

  function DeniedMessage(role: Role): string
  {
    "User role '" + RoleName(role) + "' is not authorized to access this route"
  }

  /** The error the gate passes on, or `None` when the request may proceed.
      `user` is the principal attached by authentication, if any. */
  function Authorize(roles: seq<Role>, user: Option<Principal>): (r: Option<AppError>)
    ensures user.None? ==> r == Some(AppError(AuthorizationError, "User not authenticated"))
    ensures user.Some? && user.value.role in roles ==> r.None?
    ensures user.Some? && user.value.role !in roles ==>
              r == Some(AppError(AuthorizationError, DeniedMessage(user.value.role)))
  {
    if user.None? then Some(AppError(AuthorizationError, "User not authenticated"))
    else if !Includes(roles, user.value.role) then Some(AppError(AuthorizationError, DeniedMessage(user.value.role)))
    else None
  }

  /** Allowing more roles never turns an allow into a deny. */
  lemma AuthorizeMonotone(roles: seq<Role>, more: seq<Role>, user: Option<Principal>)
    requires forall r :: r in roles ==> r in more
    ensures Authorize(roles, user).None? ==> Authorize(more, user).None?
  {
  }

  /** The organizer-only gate lets organizers through and stops attendees. */
  lemma OrganizerGate(id: UserId)
    ensures Authorize([Organizer], Some(Principal(id, Organizer))).None?
    ensures Authorize([Organizer], Some(Principal(id, Attendee)))
              == Some(AppError(AuthorizationError, DeniedMessage(Attendee)))
  {
  }
}
