/**
 * The request guard of BackEnd/middleware/auth.js: pick a token from the
 * Authorization header, the x-auth-token header or the `token` query
 * parameter, verify it, and hand the normalised payload to the next handler,
 * or answer 401.
 */
module AuthMiddleware {
  import opened Wrappers
  import Text
  import opened Schema

  /** A decoded JWT payload: an `id`, and possibly a nested `user` object of the same shape. */
  datatype Payload = Payload(id: Option<Id>, user: Option<Payload>)

  /** `jwt.verify`: the payload, or the `name` of the error it throws. */
  datatype VerifyResult = Verified(payload: Payload) | VerifyFailed(errorName: string)

  type Verifier = string -> VerifyResult

  /** The three places a token may come from; None is an absent header or parameter. */
  datatype Headers = Headers(authorization: Option<string>, xAuthToken: Option<string>, queryToken: Option<string>)

  /** What the guard does: call the next handler with `req.user` set, or answer with a status and an error. */
  datatype AuthOutcome = Next(user: Payload) | Denied(status: int, error: string)

  const BearerPrefix := "Bearer "
  const AccessDenied := "Unauthorized: Access Denied"
  const SessionExpired := "Unauthorized: Session expired. Please login again."
  const InvalidToken := "Unauthorized: Invalid token."

  /** The text between "Bearer " and the next space, as `authHeader.split(' ')[1]` yields it. */
  lemma BearerSplit(auth: string)
    requires Text.StartsWith(auth, BearerPrefix)
    ensures |Text.Split(auth, ' ')| >= 2
    ensures Text.Split(auth, ' ')[1] == Text.Split(auth[|BearerPrefix|..], ' ')[0]
  {
    var rest := auth[|BearerPrefix|..];
    assert auth == "Bearer" + (" " + rest);
    Text.SplitPrefix("Bearer", " " + rest, ' ');
    assert (" " + rest)[1..] == rest;
    assert Text.Split(" " + rest, ' ') == [""] + Text.Split(rest, ' ');
  }

  /** The second space-separated piece of a Bearer header. */
  function BearerToken(auth: string): (token: string)
    requires Text.StartsWith(auth, BearerPrefix)
    ensures ' ' !in token
  {
    BearerSplit(auth);
    SplitPieceHasNoSeparator(auth[|BearerPrefix|..]);
    Text.Split(auth, ' ')[1]
  }

  lemma {:induction false} SplitPieceHasNoSeparator(s: string)
    ensures ' ' !in Text.Split(s, ' ')[0]
    decreases |s|
  {
    if s != [] {
      SplitPieceHasNoSeparator(s[1..]);
    }
  }

  /**
   * The token the guard extracts: a truthy Authorization header that starts
   * with "Bearer " decides alone; otherwise a truthy x-auth-token; otherwise
   * a truthy query token; otherwise none (the empty string).
   */
  function TokenFrom(h: Headers): string {
    if Text.Truthy(h.authorization) && Text.StartsWith(h.authorization.value, BearerPrefix) then BearerToken(h.authorization.value)
    else if Text.Truthy(h.xAuthToken) then h.xAuthToken.value
    else if Text.Truthy(h.queryToken) then h.queryToken.value
    else ""
  }

  /** `req.user = decoded.user ? decoded.user : decoded`. */
  function Normalize(decoded: Payload): (user: Payload)
    ensures decoded.user.Some? ==> user == decoded.user.value
    ensures decoded.user.None? ==> user == decoded
  {
    if decoded.user.Some? then decoded.user.value else decoded
  }

  /** `req.user?.id || req.user?.user?.id`, as the route handlers read the owner. */
  function UserIdOf(user: Option<Payload>): (id: Option<Id>)
    ensures id.Some? ==> user.Some? && (user.value.id == id || (user.value.user.Some? && user.value.user.value.id == id))
    ensures id.None? <==> user.None? || (user.value.id.None? && (user.value.user.None? || user.value.user.value.id.None?))
  {
    if user.None? then None
    else if user.value.id.Some? then user.value.id
    else if user.value.user.Some? then user.value.user.value.id
    else None
  }

  /**
   * The guard. No token answers 401 "Access Denied" without verifying; a
   * token that fails verification answers 401, "Session expired" only for
   * TokenExpiredError; a verified token calls the next handler with the
   * normalised payload.
   */
  method Authenticate(h: Headers, verify: Verifier) returns (outcome: AuthOutcome)
    ensures TokenFrom(h) == "" ==> outcome == Denied(401, AccessDenied)
    ensures TokenFrom(h) != "" && verify(TokenFrom(h)).VerifyFailed? ==>
      outcome == Denied(401, if verify(TokenFrom(h)).errorName == "TokenExpiredError" then SessionExpired else InvalidToken)
    ensures TokenFrom(h) != "" && verify(TokenFrom(h)).Verified? ==>
      outcome == Next(Normalize(verify(TokenFrom(h)).payload))
    ensures outcome.Denied? ==> outcome.status == 401
  {
    var token := "";
    if Text.Truthy(h.authorization) && Text.StartsWith(h.authorization.value, BearerPrefix) {
      token := BearerToken(h.authorization.value);
    } else if Text.Truthy(h.xAuthToken) {
      token := h.xAuthToken.value;
    } else if Text.Truthy(h.queryToken) {
      token := h.queryToken.value;
    }
    if token == "" {
      return Denied(401, AccessDenied);
    }
    var decoded := verify(token);
    if decoded.VerifyFailed? {
      var message := if decoded.errorName == "TokenExpiredError" then SessionExpired else InvalidToken;
      return Denied(401, message);
    }
    var user := if decoded.payload.user.Some? then decoded.payload.user.value else decoded.payload;
    outcome := Next(user);
  }

  /** An Authorization header that is not a Bearer header is ignored: the other two sources decide. */
  lemma NonBearerAuthorizationIgnored(h: Headers)
    requires h.authorization.Some? && !Text.StartsWith(h.authorization.value, BearerPrefix)
    ensures TokenFrom(h) == TokenFrom(h.(authorization := None))
  {
  }

  /** Once the Bearer branch is taken, x-auth-token and the query are never consulted. */
  lemma BearerShadowsOtherSources(h: Headers, xAuthToken: Option<string>, queryToken: Option<string>)
    requires h.authorization.Some? && Text.StartsWith(h.authorization.value, BearerPrefix)
    ensures TokenFrom(h) == TokenFrom(Headers(h.authorization, xAuthToken, queryToken))
    ensures TokenFrom(h) == Text.Split(h.authorization.value[|BearerPrefix|..], ' ')[0]
  {
    BearerSplit(h.authorization.value);
  }

  /**
   * A Bearer header with nothing (or another space) right after the prefix
   * yields no token, whatever the other sources hold, so the request is denied.
   */
  lemma EmptyBearerIsNoToken(h: Headers)
    requires h.authorization.Some? && Text.StartsWith(h.authorization.value, BearerPrefix)
    requires |h.authorization.value| == |BearerPrefix| || h.authorization.value[|BearerPrefix|] == ' '
    ensures TokenFrom(h) == ""
  {
    var auth := h.authorization.value;
    var rest := auth[|BearerPrefix|..];
    BearerSplit(auth);
    if rest != [] {
      assert rest[0] == ' ';
      assert Text.Split(rest, ' ')[0] == "";
    } else {
      assert Text.Split(rest, ' ') == [""];
    }
  }

  /** The normalisation lets `req.user.id` work for both payload shapes: `{ id }` and `{ user: { id } }`. */
  lemma BothPayloadShapesYieldTheId(x: Id, extra: Option<Payload>)
    ensures UserIdOf(Some(Normalize(Payload(Some(x), None)))) == Some(x)
    ensures UserIdOf(Some(Normalize(Payload(None, Some(Payload(Some(x), extra)))))) == Some(x)
  {
  }
}
