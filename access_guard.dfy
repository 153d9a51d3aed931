/**
 * `verifyToken`, the Express middleware in front of every task route: take
 * the second space-separated word of the `Authorization` header as the token,
 * reject with 401 when there is none or it does not verify, otherwise record
 * the token's user on the request and call `next`.
 *
 * Signature and expiry checking (`jwt.verify`) is the parameter `verify`: the
 * user id a token carries, or `None` when it is malformed, forged or expired.
 */
module AccessGuard {
  import opened Wrappers
  import opened Ascii
  import opened TaskSchema
  import opened Http

  const NoTokenProvided: string := "No token provided"
  const InvalidToken: string := "Invalid token"

  /** The outcome for one request: a 401 response, or `next()` for a user. */
  datatype Gate = Rejected(response: Response) | Continue(userId: UserId)

  /** `authorization?.split(" ")[1]`: the second piece, if the header has one. */
  function ExtractToken(authorization: Option<string>): (r: Option<string>)
    ensures r.Some? ==> ' ' !in r.value
    ensures authorization.None? ==> r.None?
  {
    match authorization
    case None => None
    case Some(header) =>
      var pieces := Split(header, ' ');
      if |pieces| >= 2 then Some(pieces[1]) else None
  }

  /**
   * The token is the word after the first space, whatever the first word is
   * (the scheme is never compared with "Bearer") and whatever follows the
   * next space.
   */
  lemma SchemeWordIgnored(scheme: string, token: string, rest: Option<string>)
    requires ' ' !in scheme && ' ' !in token
    ensures var tail := if rest.Some? then " " + rest.value else "";
      ExtractToken(Some(scheme + " " + token + tail)) == Some(token)
  {
    if rest.Some? {
      assert scheme + " " + token + (" " + rest.value) == scheme + [' '] + (token + [' '] + rest.value);
      SplitAtFirst(scheme, token + [' '] + rest.value, ' ');
      SplitAtFirst(token, rest.value, ' ');
    } else {
      assert scheme + " " + token + "" == scheme + [' '] + token;
      SplitAtFirst(scheme, token, ' ');
      SplitNoSep(token, ' ');
    }
  }

  /** A header without a space (including the empty header) yields no token. */
  lemma NoSpaceNoToken(header: string)
    requires ' ' !in header
    ensures ExtractToken(Some(header)) == None
  {
    SplitNoSep(header, ' ');
  }

  /**
   * The decision `verifyToken` takes. A missing token and an empty one (as in
   * "Bearer " or a doubled space) both give "No token provided"; a token that
   * does not verify gives "Invalid token"; otherwise the request continues
   * with the token's user.
   */
  function Authenticate(authorization: Option<string>, verify: string -> Option<UserId>): (g: Gate)
    ensures g.Rejected? ==> g.response.status == 401
    ensures g.Continue? <==>
      ExtractToken(authorization).Some? && ExtractToken(authorization).value != ""
      && verify(ExtractToken(authorization).value).Some?
    ensures g.Continue? ==> Some(g.userId) == verify(ExtractToken(authorization).value)
    ensures (ExtractToken(authorization).None? || ExtractToken(authorization).value == "")
      ==> g == Rejected(Failure(401, NoTokenProvided))
    ensures (ExtractToken(authorization).Some? && ExtractToken(authorization).value != ""
             && verify(ExtractToken(authorization).value).None?)
      ==> g == Rejected(Failure(401, InvalidToken))
  {
    match ExtractToken(authorization)
    case None => Rejected(Failure(401, NoTokenProvided))
    case Some(token) =>
      if token == "" then Rejected(Failure(401, NoTokenProvided))
      else match verify(token)
        case None => Rejected(Failure(401, InvalidToken))
        case Some(userId) => Continue(userId)
  }

  /**
   * The header the web client sends (`Bearer ${token}`) is admitted exactly
   * when the token is non-empty and verifies, and then for the token's user.
   */
  lemma ClientHeaderDecision(token: string, verify: string -> Option<UserId>)
    requires ' ' !in token
    ensures var g := Authenticate(Some("Bearer " + token), verify);
      && (g.Continue? <==> token != "" && verify(token).Some?)
      && (g.Continue? ==> Some(g.userId) == verify(token))
      && (token == "" ==> g == Rejected(Failure(401, NoTokenProvided)))
      && (token != "" && verify(token).None? ==> g == Rejected(Failure(401, InvalidToken)))
  {
    SchemeWordIgnored("Bearer", token, None);
    assert "Bearer" + " " + token + "" == "Bearer " + token;
  }

  /** The Express request as `verifyToken` sees and changes it. */
  class RequestContext {
    const authorization: Option<string>
    /** `req.userId`, set for the handlers behind the gate. */
    var userId: Option<UserId>
    /** The response sent so far with `res.status(...).json(...)`, if any. */
    var response: Option<Response>
    /** How many times `next()` has been called. */
    var nextCalls: nat

    constructor (authorization: Option<string>)
      ensures this.authorization == authorization
      ensures userId == None && response == None && nextCalls == 0
    {
      this.authorization := authorization;
      userId, response, nextCalls := None, None, 0;
    }
  }

  /**
   * `verifyToken(req, res, next)`: exactly one of "send a 401" and "set
   * `req.userId`, then call `next` once" happens.
   */
  method VerifyToken(req: RequestContext, verify: string -> Option<UserId>)
    modifies req
    ensures match Authenticate(req.authorization, verify)
      case Rejected(response) =>
        req.response == Some(response) && req.nextCalls == old(req.nextCalls) && req.userId == old(req.userId)
      case Continue(userId) =>
        req.userId == Some(userId) && req.nextCalls == old(req.nextCalls) + 1 && req.response == old(req.response)
  {
    var token := ExtractToken(req.authorization);
    if token.None? || token.value == "" {
      req.response := Some(Failure(401, NoTokenProvided));
      return;
    }
    var decoded := verify(token.value);
    if decoded.None? {
      req.response := Some(Failure(401, InvalidToken));
      return;
    }
    req.userId := Some(decoded.value);
    req.nextCalls := req.nextCalls + 1;
  }
}
