/** The admin gate `adminOnly` (warehouse/utils/authentication.js). */
module Authentication {
  import opened Models
  import opened Responses

  /** What the middleware does: hand over to the next handler, or answer itself. */
  datatype GateOutcome = CallNext | Reject(httpStatus: int, errorCode: ErrorCode)

  /** Below the trusted level the request is answered with 403 ADMIN_ONLY and `next` is
      not called; at or above it `next` is called and nothing is sent. The gate returns a
      decision and so changes neither the request nor the user. */
  function AdminGate(user: User): (r: GateOutcome)
    ensures r.CallNext? <==> user.privilegeLevel >= TrustedLevel
    ensures r.Reject? ==> r.httpStatus == 403 && r.errorCode == AdminOnly && HttpStatus(r.errorCode) == 403
  {
    if user.privilegeLevel < 3 then Reject(403, AdminOnly) else CallNext
  }

  /** Exactly the store owner and the trusted operators pass. */
  lemma AdmittedLevels(user: User)
    ensures AdminGate(user).CallNext? <==> user.privilegeLevel == 3 || user.privilegeLevel == 4
  {
  }
}
