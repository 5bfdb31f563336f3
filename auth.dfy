/**
 * The authentication service of backend/internal/auth/auth.go: the claims
 * an access token carries, the check a parsed token must pass, the lookup
 * of claims in a request context, the GitHub authorisation URL and the
 * random refresh token. The JWT library, bcrypt and crypto/rand are not
 * modelled: what the library read from a token is a `JwtParse` value, and
 * the random source is a parameter.
 */
module Auth {
  import opened Wrappers
  import opened Text
  import opened Base64Url

  /** Seconds since the Unix epoch, as JWT's `exp` and `iat` carry them. */
  type UnixSeconds = int

  const NanosPerSecond: int := 1000000000

  datatype Claims = Claims(
    userId: string,
    username: string,
    isAdmin: bool,
    expiresAt: UnixSeconds,
    issuedAt: UnixSeconds)

  // ----- request context -----

  /** A value stored in a Go context under a string key. */
  datatype ContextValue = ClaimsValue(claims: Claims) | OtherValue(text: string)

  type Context = map<string, ContextValue>

  /** The key the middleware stores the claims under. */
  const UserKey := "user"

  /**
   * The claims stored under "user", or the error "user not found in
   * context" when the key is missing or holds something that is not claims.
   */
  function GetUserFromContext(ctx: Context): (r: Result<Claims, string>)
    ensures r.Success? <==> UserKey in ctx && ctx[UserKey].ClaimsValue?
    ensures r.Success? ==> r.value == ctx[UserKey].claims
    ensures r.Failure? ==> r.error == "user not found in context"
  {
    if UserKey in ctx && ctx[UserKey].ClaimsValue? then Success(ctx[UserKey].claims)
    else Failure("user not found in context")
  }

  // ----- access tokens -----

  /**
   * `time.Time.Unix()`: whole seconds, rounded down, of an instant given in
   * nanoseconds since the epoch.
   */
  function UnixOf(nanos: int): (s: UnixSeconds)
    ensures s * NanosPerSecond <= nanos < (s + 1) * NanosPerSecond
  {
    nanos / NanosPerSecond
  }

  /**
   * The claims GenerateAccessToken signs. The two clock readings are the two
   * separate `time.Now()` calls: `exp` is the first plus the access expiry,
   * `iat` is the second.
   */
  function AccessTokenClaims(userId: string, username: string, isAdmin: bool,
                             firstNow: int, secondNow: int, accessExpiry: int): (c: Claims)
    ensures c.userId == userId && c.username == username && c.isAdmin == isAdmin
    ensures c.expiresAt * NanosPerSecond <= firstNow + accessExpiry < (c.expiresAt + 1) * NanosPerSecond
    ensures c.issuedAt * NanosPerSecond <= secondNow < (c.issuedAt + 1) * NanosPerSecond
  {
    Claims(userId, username, isAdmin, UnixOf(firstNow + accessExpiry), UnixOf(secondNow))
  }

  /** The algorithms a JWT header may name. */
  datatype SigningMethod = HS256 | HS384 | HS512 | RS256 | RS384 | RS512 | ES256 | ES384 | ES512 | PS256 | NoneAlg

  /** The methods implemented by `*jwt.SigningMethodHMAC`. */
  predicate IsHmac(m: SigningMethod)
  {
    m == HS256 || m == HS384 || m == HS512
  }

  /**
   * What `jwt.ParseWithClaims` makes of a token string before the key
   * function runs: either a token it could not read at all, or the header's
   * method and `alg` text, the claims, the error signature or claim
   * validation would report (with the server's key), and the `Valid` flag.
   */
  datatype JwtParse =
    | Malformed(error: string)
    | Parsed(signingMethod: SigningMethod, alg: string, claims: Option<Claims>,
             verifyError: Option<string>, valid: bool)

  /**
   * ValidateAccessToken: a token signed with anything but HMAC is refused
   * by the key function; otherwise the library's verdict stands, and claims
   * are returned only from a valid token.
   */
  function ValidateAccessToken(parse: JwtParse): (r: Result<Claims, string>)
    ensures r.Success? <==>
      parse.Parsed? && IsHmac(parse.signingMethod) && parse.verifyError.None? &&
      parse.claims.Some? && parse.valid
    ensures r.Success? ==> r.value == parse.claims.value
    ensures parse.Parsed? && !IsHmac(parse.signingMethod) ==>
      r == Failure("unexpected signing method: " + parse.alg)
    ensures (parse.Parsed? && IsHmac(parse.signingMethod) && parse.verifyError.None? &&
      !(parse.claims.Some? && parse.valid)) ==> r == Failure("invalid token")
  {
    match parse
    case Malformed(e) => Failure(e)
    case Parsed(m, alg, claims, verifyError, valid) =>
      if !IsHmac(m) then Failure("unexpected signing method: " + alg)
      else if verifyError.Some? then Failure(verifyError.value)
      else if claims.Some? && valid then Success(claims.value)
      else Failure("invalid token")
  }

  // ----- refresh tokens -----

  /** Length in bytes of the random buffer behind a refresh token. */
  const RefreshTokenBytes: nat := 32

  /** The first 32 values a random source yields. */
  function RandomBuffer(source: nat -> Byte): (b: seq<Byte>)
    ensures |b| == RefreshTokenBytes
    ensures forall k :: 0 <= k < RefreshTokenBytes ==> b[k] == source(k)
  {
    seq(RefreshTokenBytes, k requires 0 <= k => source(k))
  }

  /**
   * GenerateRefreshToken: fill a 32-byte buffer from the random source and
   * base64url-encode it. The result is 44 characters that decode back to
   * the buffer; a failing source gives "" and its error.
   */
  method GenerateRefreshToken(entropy: Result<nat -> Byte, string>) returns (token: string, err: Option<string>)
    ensures entropy.Failure? ==> token == "" && err == Some(entropy.error)
    ensures entropy.Success? ==>
      err == None && token == Encode(RandomBuffer(entropy.value)) &&
      |token| == 44 && Decode(token) == Some(RandomBuffer(entropy.value))
  {
    var b := new Byte[RefreshTokenBytes](_ => 0);
    if entropy.Failure? {
      return "", Some(entropy.error);
    }
    var source := entropy.value;
    var i := 0;
    while i < b.Length
      invariant 0 <= i <= b.Length
      invariant forall k :: 0 <= k < i ==> b[k] == source(k)
    {
      b[i] := source(i);
      i := i + 1;
    }
    assert b[..] == RandomBuffer(source);
    token := Encode(b[..]);
    err := None;
    EncodedLength32(b[..]);
    DecodeEncode(b[..]);
  }

  // ----- GitHub sign-in -----

  const GithubAuthorizePrefix := "https://github.com/login/" + "oauth/authorize?client_id="
  const RedirectParam := "redirect_uri="
  const ScopeParam := "scope=user:email"

  lemma PrefixHasNoAmpersand()
    ensures '&' !in GithubAuthorizePrefix
  {
    assert '&' !in "https://github.com/login/";
    assert '&' !in "oauth/authorize?client_id=";
  }

  /** GetGithubOAuthURL: the two values are pasted in without escaping. */
  function GetGithubOAuthURL(clientId: string, redirectUrl: string): (url: string)
    ensures |url| == |GithubAuthorizePrefix| + |clientId| + 1 + |RedirectParam| + |redirectUrl| + 1 + |ScopeParam|
    ensures GithubAuthorizePrefix + clientId <= url
  {
    GithubAuthorizePrefix + clientId + "&" + RedirectParam + redirectUrl + "&" + ScopeParam
  }

  /**
   * The URL's query has exactly the three parameters client_id,
   * redirect_uri and scope, carrying the two values as given, precisely
   * when neither value holds '&'; every '&' in a value adds a parameter.
   */
  lemma GithubOAuthURLParams(clientId: string, redirectUrl: string)
    ensures var parts := Split(GetGithubOAuthURL(clientId, redirectUrl), '&');
      |parts| == 3 + Occurrences(clientId, '&') + Occurrences(redirectUrl, '&')
    ensures '&' !in clientId && '&' !in redirectUrl ==>
      Split(GetGithubOAuthURL(clientId, redirectUrl), '&') ==
        [GithubAuthorizePrefix + clientId, RedirectParam + redirectUrl, ScopeParam]
  {
    PrefixHasNoAmpersand();
    assert '&' !in RedirectParam;
    assert '&' !in ScopeParam;
    assert GetGithubOAuthURL(clientId, redirectUrl) ==
      (GithubAuthorizePrefix + clientId) + ['&'] + (RedirectParam + redirectUrl) + ['&'] + ScopeParam;
    ThreeParams(GithubAuthorizePrefix, clientId, RedirectParam, redirectUrl, ScopeParam);
  }

  /**
   * Three '&'-separated parameters whose fixed parts hold no '&': the
   * pieces of the split are one more than the '&'s in the two values, and
   * exactly the three parameters when the values hold none.
   */
  lemma ThreeParams(p: string, x: string, q: string, y: string, c: string)
    requires '&' !in p && '&' !in q && '&' !in c
    ensures |Split((p + x) + ['&'] + (q + y) + ['&'] + c, '&')| == 3 + Occurrences(x, '&') + Occurrences(y, '&')
    ensures '&' !in x && '&' !in y ==> Split((p + x) + ['&'] + (q + y) + ['&'] + c, '&') == [p + x, q + y, c]
  {
    SplitThreeFieldsCount(p + x, q + y, c, '&');
    OccurrencesAbsent(p, '&');
    OccurrencesAbsent(q, '&');
    OccurrencesAbsent(c, '&');
    OccurrencesConcat(p, x, '&');
    OccurrencesConcat(q, y, '&');
    if '&' !in x && '&' !in y {
      SplitThreeFields(p + x, q + y, c, '&');
    }
  }
}
