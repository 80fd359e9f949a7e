/**
 * The role gate `auth(...permittedRoles)`: a middleware that reads the `x-auth-token` header,
 * verifies it, attaches the decoded user to the request and lets the request through only when
 * that user's role is one of the permitted roles.
 */
module AccessGuard {
  import opened Common
  import UserModel

  /** The `user` object a signed token carries: `{ id, role }`. */
  datatype Identity = Identity(id: string, role: string)

  /**
   * What verifying a token with the process secret yields: an error, or the decoded payload,
   * whose `user` field may be absent (a confirmation-code token is signed with the same secret
   * and carries no `user`).
   */
  datatype Verified = VerifyError | Decoded(user: Option<Identity>)

  /** How the middleware ends the request, or that it hands it on by calling `next()`. */
  datatype Decision = Unauthorized | Forbidden | Next | ServerError

  /** The decision, the `req.user` it leaves behind, and how many times it called `next()`. */
  datatype Gate = Gate(decision: Decision, reqUser: Option<Identity>, nextCalls: nat)

  /** `!token`: a missing header and an empty one are both refused. */
  predicate Presented(header: Option<string>) {
    header.Some? && header.value != ""
  }

  /** The role check passes: the token verified, carries a user, and that user's role is permitted. */
  predicate Admits(permittedRoles: seq<string>, header: Option<string>, verify: string -> Verified) {
    && Presented(header)
    && verify(header.value).Decoded?
    && verify(header.value).user.Some?
    && verify(header.value).user.value.role in permittedRoles
  }

  /**
   * The middleware on one request. `verify` stands for `jwt.verify` with the process secret.
   * Reading `role` of an undecoded `user` throws inside the verify callback, which runs
   * synchronously, so the surrounding try/catch answers 500.
   */
  function Authorize(permittedRoles: seq<string>, header: Option<string>, verify: string -> Verified): (g: Gate)
    ensures g.nextCalls == (if g.decision == Next then 1 else 0)
    ensures g.decision == Next <==> Admits(permittedRoles, header, verify)
    ensures g.decision == Unauthorized <==> !Presented(header) || verify(header.value).VerifyError?
    ensures g.decision == ServerError <==>
              Presented(header) && verify(header.value).Decoded? && verify(header.value).user.None?
    ensures g.decision == Forbidden <==>
              && Presented(header) && verify(header.value).Decoded? && verify(header.value).user.Some?
              && verify(header.value).user.value.role !in permittedRoles
    ensures g.reqUser.Some? <==> g.decision in {Next, Forbidden}
    ensures g.reqUser.Some? ==> verify(header.value) == Decoded(g.reqUser)
  {
    if !Presented(header) then
      Gate(Unauthorized, None, 0)
    else
      match verify(header.value)
      case VerifyError => Gate(Unauthorized, None, 0)
      case Decoded(user) =>
        match user
        case None => Gate(ServerError, None, 0)
        case Some(u) =>
          if u.role in permittedRoles then Gate(Next, user, 1) else Gate(Forbidden, user, 0)
  }

  /** Granting more roles never turns an admitted request away. */
  lemma {:induction false} MoreRolesStillAdmit(roles: seq<string>, more: seq<string>,
                                                header: Option<string>, verify: string -> Verified)
    requires Authorize(roles, header, verify).decision == Next
    ensures Authorize(roles + more, header, verify).decision == Next
  {
    var u := verify(header.value).user.value;
    assert u.role in roles;
    assert u.role in roles + more;
  }

  /** `auth()` with no roles lets nothing through: every verified token gets 403. */
  lemma NoRolesAdmitNobody(header: Option<string>, verify: string -> Verified)
    ensures Authorize([], header, verify).decision != Next
    ensures Presented(header) && verify(header.value).Decoded? && verify(header.value).user.Some? ==>
              Authorize([], header, verify).decision == Forbidden
  {
  }

  /** The 401 and 500 answers do not depend on the permitted roles, only 403 and `next()` do. */
  lemma RejectionBeforeRoleCheck(roles1: seq<string>, roles2: seq<string>,
                                 header: Option<string>, verify: string -> Verified)
    ensures Authorize(roles1, header, verify).decision in {Unauthorized, ServerError} ==>
              Authorize(roles2, header, verify) == Authorize(roles1, header, verify)
  {
  }

  /** The gates the routes install, as the strings they pass to `auth(...)`. */
  const AdminOnly: seq<string> := ["admin"]
  const AnyAccount: seq<string> := ["admin", "worker", "user"]

  /** A worker's valid token is refused by every admin-only route, with 403. */
  lemma WorkerRefusedByAdminGate(token: string, id: string, verify: string -> Verified)
    requires token != ""
    requires verify(token) == Decoded(Some(Identity(id, "worker")))
    ensures Authorize(AdminOnly, Some(token), verify) == Gate(Forbidden, Some(Identity(id, "worker")), 0)
  {
  }

  /**
   * The gate of the password change admits a verified token exactly when its role is one the
   * user schema can store; any other role string is refused with 403.
   */
  lemma AccountGateAdmitsStoredRoles(token: string, id: string, role: string, verify: string -> Verified)
    requires token != ""
    requires verify(token) == Decoded(Some(Identity(id, role)))
    ensures Authorize(AnyAccount, Some(token), verify).decision == Next <==> UserModel.ParseRole(role).Some?
    ensures UserModel.ParseRole(role).None? ==> Authorize(AnyAccount, Some(token), verify).decision == Forbidden
  {
  }
}
