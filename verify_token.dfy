/**
 * The access-token check in front of the protected routes
 * (backend/src/middleware/verifyToken.js). JWT verification is a parameter:
 * it yields the token's claims, or nothing when the signature or expiry
 * check fails.
 */
module TokenCheck {
  import opened Common
  import opened Store
  import opened Http

  /** The claims of a verified token; `userId` may be absent from the payload. */
  datatype Claims = Claims(userId: Option<UserId>)

  /** The three ways the check can end. */
  datatype Verdict = NotAuthenticated | InvalidToken | Pass(userId: Option<UserId>)

  /** The cookie the check reads. */
  const TokenCookie := "token"

  function CheckToken(cookies: map<string, string>, verify: string -> Option<Claims>): (r: Verdict) {
    if TokenCookie !in cookies || cookies[TokenCookie] == "" then NotAuthenticated
    else match verify(cookies[TokenCookie])
      case None => InvalidToken
      case Some(claims) => Pass(claims.userId)
  }

  /** The body of a refusal; the key is spelled `sucess`, as the handler writes it. */
  function Refusal(status: int, message: string): (r: Response) {
    Response(status, [("sucess", JBool(false)), ("message", JStr(message))])
  }

  method VerifyToken(x: Exchange, cookies: map<string, string>, verify: string -> Option<Claims>)
    modifies x`userId, x`response, x`forwarded
    ensures match CheckToken(cookies, verify)
      case NotAuthenticated =>
        x.response == Some(Refusal(401, "Not authenticated!")) && x.forwarded == old(x.forwarded) && x.userId == old(x.userId)
      case InvalidToken =>
        x.response == Some(Refusal(403, "Token is invalid!")) && x.forwarded == old(x.forwarded) && x.userId == old(x.userId)
      case Pass(u) =>
        x.response == old(x.response) && x.forwarded == old(x.forwarded) + [None] && x.userId == u
  {
    if TokenCookie !in cookies || cookies[TokenCookie] == "" {
      x.response := Some(Refusal(401, "Not authenticated!"));
      return;
    }
    var token := cookies[TokenCookie];
    var payload := verify(token);
    if payload.None? {
      x.response := Some(Refusal(403, "Token is invalid!"));
      return;
    }
    x.userId := payload.value.userId;
    x.forwarded := x.forwarded + [None];
  }

  /**
   * A missing or empty `token` cookie is a 401, a token that fails
   * verification a 403, and a verified token passes on the payload's user
   * id; exactly one of the three happens.
   */
  lemma CheckTokenCases(cookies: map<string, string>, verify: string -> Option<Claims>)
    ensures var v := CheckToken(cookies, verify);
      && (v.NotAuthenticated? <==> TokenCookie !in cookies || cookies[TokenCookie] == "")
      && (v.InvalidToken? <==> TokenCookie in cookies && cookies[TokenCookie] != "" && verify(cookies[TokenCookie]).None?)
      && (v.Pass? <==> TokenCookie in cookies && cookies[TokenCookie] != "" && verify(cookies[TokenCookie]).Some?)
      && (v.Pass? ==> v.userId == verify(cookies["token"]).value.userId)
  {
  }

  /**
   * Only the `token` cookie matters: the `accessToken` cookie that login sets
   * is not read, so a request carrying only that cookie is refused with 401.
   */
  lemma AccessTokenCookieIgnored(value: string, verify: string -> Option<Claims>)
    ensures CheckToken(map["accessToken" := value], verify) == NotAuthenticated
  {
    assert TokenCookie !in map["accessToken" := value];
  }
}
