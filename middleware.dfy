/**
 * `authenticateToken`: the bearer token of the `Authorization` header is verified,
 * and the request proceeds with the user id the token carries.
 */
module Middleware {
  import opened Wrappers
  import opened Js

  const MsgNoToken := "No token, authorization denied"
  const MsgTokenInvalid := "Token is not valid"
  const BearerPrefix := "Bearer "

  /** What the middleware decides: a 401 answer, or the id of the authenticated user. */
  datatype AuthOutcome = Denied(status: nat, message: string) | Authorized(userId: string)

  /**
   * The token of an `Authorization` header: the header with its first `Bearer ` removed;
   * a missing header or an empty result counts as no token.
   */
  function ExtractToken(header: Option<string>): (t: Option<string>)
    ensures t.Some? ==> t.value != "" && header.Some?
  {
    match header
    case None => None
    case Some(h) =>
      var token := ReplaceFirst(h, BearerPrefix, "");
      if token == "" then None else Some(token)
  }

  /** A header `Bearer <t>` yields `t`, unless `t` is empty. */
  lemma ExtractBearer(t: string)
    ensures ExtractToken(Some(BearerPrefix + t)) == if t == "" then None else Some(t)
  {
    ReplaceFirstPrefix(BearerPrefix, "", t);
    assert "" + t == t;
  }

  /**
   * The middleware, with `jwt.verify` as the oracle `verify`: `None` when the signature,
   * the format or the expiry is wrong, otherwise the `userId` claim signed at login.
   */
  function Authenticate(header: Option<string>, verify: string -> Option<string>): (r: AuthOutcome)
    ensures r.Denied? ==> r.status == 401
    ensures ExtractToken(header).None? ==> r == Denied(401, MsgNoToken)
    ensures ExtractToken(header).Some? && verify(ExtractToken(header).value).None? ==>
              r == Denied(401, MsgTokenInvalid)
    ensures ExtractToken(header).Some? && verify(ExtractToken(header).value).Some? ==>
              r == Authorized(verify(ExtractToken(header).value).value)
  {
    match ExtractToken(header)
    case None => Denied(401, MsgNoToken)
    case Some(token) =>
      match verify(token)
      case None => Denied(401, MsgTokenInvalid)
      case Some(userId) => Authorized(userId)
  }

  /** A well-formed bearer header whose token verifies authorizes exactly the token's user. */
  lemma AuthenticateBearer(t: string, verify: string -> Option<string>)
    requires t != ""
    ensures Authenticate(Some(BearerPrefix + t), verify) ==
              if verify(t).Some? then Authorized(verify(t).value) else Denied(401, MsgTokenInvalid)
  {
    ExtractBearer(t);
  }
}
