/**
 * `isAuthenticated`: picks the session token from the `Authorization` header
 * or the `token` cookie, decodes it, loads the user, and either answers 401
 * or records the user on the request and passes control on.
 */
module Auth {
  import opened Wrappers
  import opened Text
  import opened Users

  /**
   * The token the middleware reads (`None` is `undefined`): with a header starting
   * with `Bearer` (case-sensitive) it is the second space-separated piece of the
   * header, and the cookie is not consulted; otherwise it is the cookie token when
   * that is non-empty.
   */
  function SelectToken(authorization: Option<string>, cookieToken: Option<string>): (r: Option<string>)
    ensures authorization.Some? && StartsWith(authorization.value, "Bearer") ==> r.Some? ==> ' ' !in r.value
    ensures !(authorization.Some? && StartsWith(authorization.value, "Bearer")) ==>
      r == (if cookieToken.Some? && cookieToken.value != "" then cookieToken else None)
  {
    if authorization.Some? && StartsWith(authorization.value, "Bearer") then
      var parts := Split(authorization.value, ' ');
      if |parts| > 1 then Some(parts[1]) else None
    else if cookieToken.Some? && cookieToken.value != "" then cookieToken
    else None
  }

  /**
   * The user the request is authenticated as, or `None` when the middleware answers 401:
   * no token or an empty one, a token `verifyToken` does not accept, or no user with the
   * decoded id.
   */
  function Authenticate(authorization: Option<string>, cookieToken: Option<string>,
                        verify: string -> Option<string>, users: seq<User>): (r: Option<User>)
    ensures r.Some? <==>
      var t := SelectToken(authorization, cookieToken);
      t.Some? && t.value != "" && verify(t.value).Some? && FindById(users, verify(t.value).value).Some?
    ensures r.Some? ==> r.value in users && r.value.id == verify(SelectToken(authorization, cookieToken).value).value
  {
    match SelectToken(authorization, cookieToken)
    case None => None
    case Some(token) =>
      if token == "" then None
      else match verify(token)
        case None => None
        case Some(id) =>
          match FindById(users, id)
          case None => None
          case Some(i) => Some(users[i])
  }

  /** The header `<a> <t><b>` with a space-free `a` starting with `Bearer` yields the token `t`, whatever the cookie. */
  lemma BearerTokenIsSecondPiece(a: string, t: string, b: string, cookieToken: Option<string>)
    requires StartsWith(a, "Bearer") && ' ' !in a && ' ' !in t
    requires b == [] || b[0] == ' '
    ensures SelectToken(Some(a + " " + t + b), cookieToken) == Some(t)
  {
    var h := a + " " + t + b;
    assert h == a + [' '] + (t + b);
    assert h[..|"Bearer"|] == a[..|"Bearer"|];
    SplitAfterHead(a, t + b, ' ');
    SplitFirstPiece(t, b, ' ');
  }

  /** A header starting with `Bearer` but holding no space (`"Bearer"`, `"Bearerabc"`) yields no token, even with a cookie. */
  lemma BearerWithoutSpaceHasNoToken(h: string, cookieToken: Option<string>)
    requires StartsWith(h, "Bearer") && ' ' !in h
    ensures SelectToken(Some(h), cookieToken) == None
  {
    SplitWithoutSeparator(h, ' ');
  }

  /** With a `Bearer` header the cookie is never consulted. */
  lemma HeaderTakesPrecedence(h: string, cookie1: Option<string>, cookie2: Option<string>)
    requires StartsWith(h, "Bearer")
    ensures SelectToken(Some(h), cookie1) == SelectToken(Some(h), cookie2)
  {
  }

  /** Without a `Bearer` header (absent, or `bearer …`, `Basic …`) the cookie token is used when non-empty. */
  lemma CookieWithoutBearerHeader(authorization: Option<string>, cookie: string)
    requires authorization.None? || !StartsWith(authorization.value, "Bearer")
    ensures SelectToken(authorization, Some(cookie)) == if cookie != "" then Some(cookie) else None
  {
  }

  /** A double space after `Bearer` gives the empty token, which is rejected. */
  lemma DoubleSpaceIsRejected(rest: string, cookieToken: Option<string>, verify: string -> Option<string>,
                              users: seq<User>)
    ensures Authenticate(Some("Bearer  " + rest), cookieToken, verify, users).None?
  {
    var h := "Bearer  " + rest;
    assert h == "Bearer" + [' '] + ([' '] + rest);
    assert h[..|"Bearer"|] == "Bearer";
    SplitAfterHead("Bearer", [' '] + rest, ' ');
    SplitFirstPiece([], [' '] + rest, ' ');
    assert [] + ([' '] + rest) == [' '] + rest;
  }

  /** The request, as far as the middleware reads and writes it. */
  class Request {
    const authorization: Option<string>
    const cookieToken: Option<string>
    var user: Option<User>

    constructor (authorization: Option<string>, cookieToken: Option<string>)
      ensures this.authorization == authorization && this.cookieToken == cookieToken
      ensures user.None?
    {
      this.authorization := authorization;
      this.cookieToken := cookieToken;
      this.user := None;
    }
  }

  /** What the middleware does with the request: a 401 answer, or exactly one call of `next`. */
  datatype Outcome = RespondUnauthorized | CallNext

  method IsAuthenticated(req: Request, verify: string -> Option<string>, users: seq<User>)
    returns (outcome: Outcome)
    modifies req`user
    ensures outcome == CallNext <==> Authenticate(req.authorization, req.cookieToken, verify, users).Some?
    ensures req.user == if outcome == CallNext then Authenticate(req.authorization, req.cookieToken, verify, users)
                        else old(req.user)
  {
    var token: Option<string> := None;
    if req.authorization.Some? && StartsWith(req.authorization.value, "Bearer") {
      var parts := Split(req.authorization.value, ' ');
      if |parts| > 1 {
        token := Some(parts[1]);
      }
    } else if req.cookieToken.Some? && req.cookieToken.value != "" {
      token := req.cookieToken;
    }
    if token.None? || token.value == "" {
      return RespondUnauthorized;
    }
    var payload := verify(token.value);
    if payload.None? {
      return RespondUnauthorized;
    }
    var found := FindById(users, payload.value);
    if found.None? {
      return RespondUnauthorized;
    }
    req.user := Some(users[found.value]);
    outcome := CallNext;
  }
}
