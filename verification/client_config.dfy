/**
 * `getAuthHeaders` of FrontEnd/invoice-extractor-system/src/config.js: the
 * stored token goes out twice, as "Bearer <token>" and as x-auth-token. A
 * missing token is interpolated as the text "null".
 */
module ClientConfig {
  import opened Wrappers
  import Text
  import opened AuthMiddleware

  /** The headers object; `xAuthToken` is None when the stored token is null. */
  datatype AuthHeaders = AuthHeaders(authorization: string, xAuthToken: Option<string>)

  /** The token as the template literal renders it: null becomes "null". */
  function Rendered(stored: Option<string>): string {
    stored.GetOr("null")
  }

  /** The headers built from the token read once from local storage (None when nothing is stored). */
  function GetAuthHeaders(stored: Option<string>): (r: AuthHeaders)
    ensures Text.StartsWith(r.authorization, BearerPrefix)
    ensures r.authorization[|BearerPrefix|..] == Rendered(stored)
    ensures r.xAuthToken == stored
  {
    AuthHeaders(BearerPrefix + Rendered(stored), stored)
  }

  /** The request as the guard sees it, with whatever query string the call carries. */
  function AsReceived(h: AuthHeaders, queryToken: Option<string>): Headers {
    Headers(Some(h.authorization), h.xAuthToken, queryToken)
  }

  /** Round trip: a non-empty token without spaces is exactly what the guard extracts. */
  lemma TokenRoundTrip(token: string, queryToken: Option<string>)
    requires token != "" && ' ' !in token
    ensures TokenFrom(AsReceived(GetAuthHeaders(Some(token)), queryToken)) == token
  {
    var h := AsReceived(GetAuthHeaders(Some(token)), queryToken);
    BearerShadowsOtherSources(h, None, None);
    Text.SplitWithoutSeparator(token, ' ');
  }

  /** With nothing stored, the guard receives and tries to verify the token "null". */
  lemma MissingTokenSendsNull(queryToken: Option<string>)
    ensures GetAuthHeaders(None).authorization == "Bearer null"
    ensures TokenFrom(AsReceived(GetAuthHeaders(None), queryToken)) == "null"
  {
    var h := AsReceived(GetAuthHeaders(None), queryToken);
    BearerShadowsOtherSources(h, None, None);
    Text.SplitWithoutSeparator("null", ' ');
  }

  /** A token with a space is cut at the first space by the guard. */
  lemma TokenCutAtSpace(p: string, q: string, queryToken: Option<string>)
    requires p != "" && ' ' !in p
    ensures TokenFrom(AsReceived(GetAuthHeaders(Some(p + " " + q)), queryToken)) == p
  {
    var h := AsReceived(GetAuthHeaders(Some(p + " " + q)), queryToken);
    BearerShadowsOtherSources(h, None, None);
    Text.SplitPrefix(p, " " + q, ' ');
    assert p + " " + q == p + (" " + q);
    assert Text.Split(" " + q, ' ')[0] == "";
  }
}
