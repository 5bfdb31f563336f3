/**
 * The three Gin handlers of backend/internal/middleware/auth.go, each a
 * decision over the request: continue with a (possibly extended) context,
 * or abort with a status and an error body.
 */
module Middleware {
  import opened Wrappers
  import opened Text
  import opened Auth

  datatype Verdict = Next(ctx: Context) | Abort(status: int, error: string)

  /**
   * The token of an "Authorization" header: the header must split on single
   * spaces into exactly two pieces, the first of them "Bearer".
   */
  function BearerToken(header: string): (token: Option<string>)
    ensures token.Some? ==> header == "Bearer " + token.value && ' ' !in token.value
  {
    var parts := Split(header, ' ');
    if |parts| != 2 || parts[0] != "Bearer" then None
    else
      JoinSplit(header, ' ');
      assert parts[1..] == [parts[1]];
      assert Join(parts, ' ') == parts[0] + [' '] + parts[1];
      Some(parts[1])
  }

  /**
   * A header is accepted exactly when it is "Bearer", one space, and a
   * token that holds no space (possibly the empty token).
   */
  lemma BearerTokenIff(header: string, token: string)
    ensures BearerToken(header) == Some(token) <==> header == "Bearer " + token && ' ' !in token
  {
    if header == "Bearer " + token && ' ' !in token {
      assert ' ' !in "Bearer";
      assert header == "Bearer" + [' '] + token;
      SplitAfterWord("Bearer", ' ', token);
      SplitNoSeparator(token, ' ');
    }
  }

  /** Two spaces after "Bearer" make three pieces, and the header is ignored. */
  lemma DoubleSpaceRejected(token: string)
    ensures BearerToken("Bearer  " + token) == None
  {
    var header := "Bearer  " + token;
    assert header == "Bearer" + [' '] + ("" + [' '] + token);
    assert ' ' !in "Bearer";
    SplitAfterWord("Bearer", ' ', "" + [' '] + token);
    SplitAfterWord("", ' ', token);
  }

  /**
   * AuthMiddleware. It never aborts. The context gains the validated claims
   * under "user" exactly when the header carries a bearer token that passes
   * validation; otherwise the request goes on unchanged.
   */
  function AuthMiddleware(ctx: Context, header: string, parse: string -> JwtParse): (v: Verdict)
    ensures v.Next?
    ensures header == "" ==> v.ctx == ctx
    ensures BearerToken(header).None? ==> v.ctx == ctx
    ensures BearerToken(header).Some? && ValidateAccessToken(parse(BearerToken(header).value)).Failure? ==>
      v.ctx == ctx
    ensures BearerToken(header).Some? && ValidateAccessToken(parse(BearerToken(header).value)).Success? ==>
      v.ctx == ctx[UserKey := ClaimsValue(ValidateAccessToken(parse(BearerToken(header).value)).value)]
  {
    if header == "" then Next(ctx)
    else
      match BearerToken(header)
      case None => Next(ctx)
      case Some(token) =>
        match ValidateAccessToken(parse(token))
        case Failure(_) => Next(ctx)
        case Success(claims) => Next(ctx[UserKey := ClaimsValue(claims)])
  }

  /** RequireAuth: 401 "Unauthorized" exactly when the context holds no claims. */
  function RequireAuth(ctx: Context): (v: Verdict)
    ensures v.Abort? <==> GetUserFromContext(ctx).Failure?
    ensures v.Abort? ==> v.status == 401 && v.error == "Unauthorized"
    ensures v.Next? ==> v.ctx == ctx
  {
    if GetUserFromContext(ctx).Failure? then Abort(401, "Unauthorized") else Next(ctx)
  }

  /** RequireAdmin: 403 "Forbidden" exactly when there are no claims or they are not an admin's. */
  function RequireAdmin(ctx: Context): (v: Verdict)
    ensures v.Abort? <==> !(UserKey in ctx && ctx[UserKey].ClaimsValue? && ctx[UserKey].claims.isAdmin)
    ensures v.Abort? ==> v.status == 403 && v.error == "Forbidden"
    ensures v.Next? ==> v.ctx == ctx
  {
    var user := GetUserFromContext(ctx);
    if user.Failure? || !user.value.isAdmin then Abort(403, "Forbidden") else Next(ctx)
  }

  /** A request that passes the admin check also passes the authentication check. */
  lemma AdminImpliesAuthenticated(ctx: Context)
    requires RequireAdmin(ctx).Next?
    ensures RequireAuth(ctx).Next?
  {
  }

  /**
   * A request whose header is "Bearer " and a token the validator accepts
   * reaches the resolvers with exactly the validated claims, and passes
   * RequireAuth; it passes RequireAdmin exactly when the claims say admin.
   */
  lemma ValidBearerAuthenticates(ctx: Context, token: string, parse: string -> JwtParse)
    requires ' ' !in token
    requires ValidateAccessToken(parse(token)).Success?
    ensures var v := AuthMiddleware(ctx, "Bearer " + token, parse);
      GetUserFromContext(v.ctx) == ValidateAccessToken(parse(token)) &&
      RequireAuth(v.ctx).Next? &&
      (RequireAdmin(v.ctx).Next? <==> ValidateAccessToken(parse(token)).value.isAdmin)
  {
    BearerTokenIff("Bearer " + token, token);
  }

  /** Without a usable bearer token, the authentication check refuses a request that came in without claims. */
  lemma MissingTokenUnauthorized(ctx: Context, header: string, parse: string -> JwtParse)
    requires GetUserFromContext(ctx).Failure?
    requires BearerToken(header).None?
    ensures RequireAuth(AuthMiddleware(ctx, header, parse).ctx) == Abort(401, "Unauthorized")
  {
  }
}
