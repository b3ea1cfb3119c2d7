/** The middleware in front of the admin routes. */
module Gate {
  import opened Store

  /** Exactly one of: pass the request on, or answer 401 "Unauthorized". */
  datatype Decision = CallNext | RespondUnauthorized

  /** `adminOnly`: only reads the caller's role; a request without a user is refused. */
  function AdminOnly(user: Option<Actor>): (d: Decision)
    ensures d == CallNext <==> user.Some? && IsElevated(user.value.role)
    ensures d == RespondUnauthorized <==> user.None? || !IsElevated(user.value.role)
  {
    if user.Some? && (user.value.role == Admin || user.value.role == SuperAdmin) then CallNext
    else RespondUnauthorized
  }
}
