/**
 * The mutation resolvers of backend/graph/resolver/mutation.go: signup,
 * login, post creation, the two token stubs, the Cloudinary upload
 * signature and the conversions to the GraphQL shapes. The resolver holds
 * the user and post tables; bcrypt, JWT signing, SHA-256 and time
 * formatting are parameters, and every `time.Now()` is a clock reading
 * passed in.
 */
module Mutation {
  import opened Wrappers
  import opened Text
  import opened ObjectIds
  import opened Models
  import opened Auth
  import opened Base64Url
  import Config
  import UserRepository
  import PostRepository

  // ----- GraphQL shapes -----

  datatype SignupInput = SignupInput(username: string, email: string, password: string, displayName: Option<string>)

  datatype LoginInput = LoginInput(email: string, password: string)

  datatype CreatePostInput = CreatePostInput(
    content: string,
    codeSnippet: Option<string>,
    language: Option<string>,
    tags: seq<string>,
    visibility: Option<string>)

  /** The GraphQL User: the ID as 24 hex digits, no password, no ban, no GitHub ID. */
  datatype GqlUser = GqlUser(
    id: string,
    username: string,
    displayName: string,
    email: string,
    avatarUrl: string,
    bio: string,
    reputation: int,
    isAdmin: bool,
    createdAt: Time,
    updatedAt: Time)

  /** The GraphQL Post: no author, visibility or deleted flag. */
  datatype GqlPost = GqlPost(
    id: string,
    content: string,
    codeSnippet: string,
    language: string,
    tags: seq<string>,
    createdAt: Time,
    updatedAt: Time,
    likesCount: int,
    commentsCount: int,
    viewsCount: int,
    upvotesCount: int)

  datatype AuthPayload = AuthPayload(accessToken: string, refreshToken: string, user: GqlUser)

  datatype CloudinarySignature = CloudinarySignature(
    signature: string,
    timestamp: int,
    cloudName: string,
    apiKey: string,
    folder: string)

  /**
   * The authentication service's opaque parts: bcrypt hashing and checking,
   * HS256 signing of a claim set, and the access-token lifetime.
   */
  datatype Services = Services(
    hashPassword: string -> Result<string, string>,
    checkPassword: (string, string) -> bool,
    signToken: Claims -> Result<string, string>,
    accessExpiry: int)

  const EmailTaken := "user with this email already exists"
  const UsernameTaken := "username already taken"
  const InvalidCredentials := "invalid credentials"
  const BannedPrefix := "account is banned until "
  const Unauthorized := "unauthorized"
  const RefreshNotImplemented := "refresh token functionality not fully implemented"

  // ----- conversions -----

  /** convertUser: the stored user as the API shows it, its ID readable back from the hex text. */
  function ConvertUser(u: User): (g: GqlUser)
    ensures FromHex(g.id) == Some(u.id)
    ensures g.username == u.username && g.displayName == u.displayName && g.email == u.email
    ensures g.avatarUrl == u.avatarUrl && g.bio == u.bio
    ensures g.reputation == u.reputation && g.isAdmin == u.isAdmin
    ensures g.createdAt == u.createdAt && g.updatedAt == u.updatedAt
  {
    FromHexHex(u.id);
    GqlUser(Hex(u.id), u.username, u.displayName, u.email, u.avatarUrl, u.bio,
            u.reputation, u.isAdmin, u.createdAt, u.updatedAt)
  }

  /** convertPost: the stored post as the API shows it, its ID readable back from the hex text. */
  function ConvertPost(p: Post): (g: GqlPost)
    ensures FromHex(g.id) == Some(p.id)
    ensures g.content == p.content && g.codeSnippet == p.codeSnippet && g.language == p.language && g.tags == p.tags
    ensures g.createdAt == p.createdAt && g.updatedAt == p.updatedAt
    ensures g.likesCount == p.likesCount && g.commentsCount == p.commentsCount &&
            g.viewsCount == p.viewsCount && g.upvotesCount == p.upvotesCount
  {
    FromHexHex(p.id);
    GqlPost(Hex(p.id), p.content, p.codeSnippet, p.language, p.tags,
            p.createdAt, p.updatedAt, p.likesCount, p.commentsCount, p.viewsCount, p.upvotesCount)
  }

  /** Two stored users that convert to the same API ID are the same stored ID. */
  lemma ConvertUserIdInjective(a: User, b: User)
    requires ConvertUser(a).id == ConvertUser(b).id
    ensures a.id == b.id
  {
    HexInjective(a.id, b.id);
  }

  // ----- the pieces the resolvers assemble -----

  /** The user Signup builds before the table fills in ID, timestamps, reputation and admin flag. */
  function NewUser(input: SignupInput, hashed: string): User
    requires input.displayName.Some?
  {
    User(NilObjectId, input.username, input.displayName.value, input.email, hashed,
         "", "", 0, false, None, "", 0, 0)
  }

  /** The author CreatePost credits: the claims' user ID read as hex, the zero ID if unreadable. */
  function AuthorOf(userId: string): (a: ObjectId)
    ensures FromHex(userId).Some? ==> a == FromHex(userId).value
    ensures FromHex(userId).None? ==> a == NilObjectId
  {
    FromHex(userId).GetOr(NilObjectId)
  }

  /** A token minted for a stored user credits that same user. */
  lemma AuthorOfHex(id: ObjectId)
    ensures AuthorOf(Hex(id)) == id
  {
    FromHexHex(id);
  }

  /** A ban holds while its end lies strictly after now. */
  predicate Banned(u: User, now: Time)
  {
    u.bannedUntil.Some? && u.bannedUntil.value > now
  }

  /** The text Cloudinary signs: folder, then timestamp, then the API secret appended bare. */
  function SignString(folder: string, timestamp: int, secret: string): (s: string)
    ensures |s| == |"folder="| + |folder| + |"&timestamp="| + |IntToString(timestamp)| + |secret|
    ensures s[..7] == "folder=" && s[7..7 + |folder|] == folder
    ensures s[|s| - |secret|..] == secret
  {
    "folder=" + folder + "&timestamp=" + IntToString(timestamp) + secret
  }

  /**
   * With no '&' in the folder or the secret, the sign string splits on '&'
   * into exactly the folder parameter and the timestamp parameter.
   */
  lemma SignStringFields(folder: string, timestamp: int, secret: string)
    requires '&' !in folder && '&' !in secret
    ensures Split(SignString(folder, timestamp, secret), '&') ==
      ["folder=" + folder, "timestamp=" + IntToString(timestamp) + secret]
  {
    var first := "folder=" + folder;
    var digits := IntToString(timestamp);
    var second := "timestamp=" + digits + secret;
    IntToStringOnlyDigits(timestamp, '&');
    assert '&' !in first;
    assert '&' !in second;
    assert SignString(folder, timestamp, secret) == first + ['&'] + second;
    SplitAfterWord(first, '&', second);
    SplitNoSeparator(second, '&');
  }

  /** RefreshToken: a stub that always fails. */
  function RefreshToken(refreshToken: string): (r: Result<AuthPayload, string>)
    ensures r.Failure? && r.error == RefreshNotImplemented
  {
    Failure(RefreshNotImplemented)
  }

  /** Logout: a stub that always succeeds and invalidates nothing. */
  function Logout(): (ok: bool)
    ensures ok
  {
    true
  }

  /**
   * GetCloudinarySignature: the timestamp is the clock in whole seconds,
   * the signature the SHA-256 hex digest of the sign string, and the cloud
   * name and API key come from the configuration.
   */
  function GetCloudinarySignature(cfg: Config.Config, folder: string, nowNanos: int, sha256Hex: string -> string)
    : (sig: CloudinarySignature)
    ensures sig.timestamp * NanosPerSecond <= nowNanos < (sig.timestamp + 1) * NanosPerSecond
    ensures sig.signature == sha256Hex(SignString(folder, sig.timestamp, cfg.cloudinaryApiSecret))
    ensures sig.folder == folder && sig.cloudName == cfg.cloudinaryCloudName && sig.apiKey == cfg.cloudinaryApiKey
  {
    var timestamp := UnixOf(nowNanos);
    CloudinarySignature(sha256Hex(SignString(folder, timestamp, cfg.cloudinaryApiSecret)), timestamp,
                        cfg.cloudinaryCloudName, cfg.cloudinaryApiKey, folder)
  }

  /**
   * The payload issueTokens hands back for a user: an access token signed
   * over the user's claims, a refresh token that is the base64url text of
   * the entropy's 32 bytes, and the user as the API shows it. Signing is
   * tried first, so its failure is reported before an entropy failure.
   */
  function Tokens(auth: Services, u: User, firstNow: Time, secondNow: Time, entropy: Result<nat -> Byte, string>)
    : (r: Result<AuthPayload, string>)
    ensures var signed := auth.signToken(AccessTokenClaims(Hex(u.id), u.username, u.isAdmin, firstNow, secondNow, auth.accessExpiry));
      && (r.Success? <==> signed.Success? && entropy.Success?)
      && (signed.Failure? ==> r == Failure(signed.error))
      && (signed.Success? && entropy.Failure? ==> r == Failure(entropy.error))
      && (r.Success? ==> r.value.accessToken == signed.value)
    ensures r.Success? ==>
      && |r.value.refreshToken| == 44
      && Decode(r.value.refreshToken) == Some(RandomBuffer(entropy.value))
      && r.value.user == ConvertUser(u)
  {
    var signed := auth.signToken(AccessTokenClaims(Hex(u.id), u.username, u.isAdmin, firstNow, secondNow, auth.accessExpiry));
    if signed.Failure? then Failure(signed.error)
    else if entropy.Failure? then Failure(entropy.error)
    else
      var buffer := RandomBuffer(entropy.value);
      DecodeEncode(buffer);
      EncodedLength32(buffer);
      Success(AuthPayload(signed.value, Encode(buffer), ConvertUser(u)))
  }

  // ----- the resolver -----

  class Resolver {
    const users: UserRepository.UserRepository
    const posts: PostRepository.PostRepository
    const auth: Services

    predicate Valid()
      reads users, posts
    {
      users.Valid() && posts.Valid()
    }

    constructor (users: UserRepository.UserRepository, posts: PostRepository.PostRepository, auth: Services)
      ensures this.users == users && this.posts == posts && this.auth == auth
    {
      this.users := users;
      this.posts := posts;
      this.auth := auth;
    }

    /**
     * The tokens of an auth payload: an access token signed over the user's
     * claims, then a refresh token; the first failure is the error.
     */
    method IssueTokens(u: User, firstNow: Time, secondNow: Time, entropy: Result<nat -> Byte, string>)
      returns (r: Result<AuthPayload, string>)
      ensures var signed := auth.signToken(AccessTokenClaims(Hex(u.id), u.username, u.isAdmin, firstNow, secondNow, auth.accessExpiry));
        && (signed.Failure? ==> r == Failure(signed.error))
        && (signed.Success? && entropy.Failure? ==> r == Failure(entropy.error))
        && (signed.Success? && entropy.Success? ==>
              r == Success(AuthPayload(signed.value, Encode(RandomBuffer(entropy.value)), ConvertUser(u))))
      ensures r.Success? ==> |r.value.refreshToken| == 44
      ensures r == Tokens(auth, u, firstNow, secondNow, entropy)
    {
      var claims := AccessTokenClaims(Hex(u.id), u.username, u.isAdmin, firstNow, secondNow, auth.accessExpiry);
      var signed := auth.signToken(claims);
      if signed.Failure? {
        return Failure(signed.error);
      }
      var refresh, err := GenerateRefreshToken(entropy);
      if err.Some? {
        return Failure(err.value);
      }
      r := Success(AuthPayload(signed.value, refresh, ConvertUser(u)));
    }

    /**
     * Signup: a taken email is reported before a taken username, then the
     * password is hashed; only then is the user stored, with reputation 0
     * and no admin rights, and tokens issued. A token failure comes after
     * the user is stored, which stays stored.
     */
    method Signup(input: SignupInput, id: ObjectId, createdAt: Time, updatedAt: Time,
                  firstNow: Time, secondNow: Time, entropy: Result<nat -> Byte, string>)
      returns (r: Result<AuthPayload, string>)
      requires Valid() && id !in users.Ids()
      requires (users.FindByEmail(input.email).Failure? && users.FindByUsername(input.username).Failure? &&
                auth.hashPassword(input.password).Success?) ==> input.displayName.Some?
      modifies users
      ensures Valid()
      ensures old(users.FindByEmail(input.email)).Success? ==>
        r == Failure(EmailTaken) && users.rows == old(users.rows)
      ensures (old(users.FindByEmail(input.email)).Failure? && old(users.FindByUsername(input.username)).Success?) ==>
        r == Failure(UsernameTaken) && users.rows == old(users.rows)
      ensures (old(users.FindByEmail(input.email)).Failure? && old(users.FindByUsername(input.username)).Failure? &&
               auth.hashPassword(input.password).Failure?) ==>
        r == Failure(auth.hashPassword(input.password).error) && users.rows == old(users.rows)
      ensures (old(users.FindByEmail(input.email)).Failure? && old(users.FindByUsername(input.username)).Failure? &&
               auth.hashPassword(input.password).Success?) ==>
        && |users.rows| == |old(users.rows)| + 1
        && users.rows[..|old(users.rows)|] == old(users.rows)
        && var stored := users.rows[|old(users.rows)|];
           && stored == NewUser(input, auth.hashPassword(input.password).value).(id := id, createdAt := createdAt, updatedAt := updatedAt)
           && stored.reputation == 0 && !stored.isAdmin
           && users.FindByEmail(input.email) == Success(stored)
           && r == Tokens(auth, stored, firstNow, secondNow, entropy)
      ensures r.Success? ==> r.value.user.reputation == 0 && !r.value.user.isAdmin && |r.value.refreshToken| == 44
      ensures r.Success? ==> users.FindByEmail(input.email).Success? && r.value.user == ConvertUser(users.FindByEmail(input.email).value)
    {
      var byEmail := users.FindByEmail(input.email);
      if byEmail.Success? {
        return Failure(EmailTaken);
      }
      var byUsername := users.FindByUsername(input.username);
      if byUsername.Success? {
        return Failure(UsernameTaken);
      }
      var hashed := auth.hashPassword(input.password);
      if hashed.Failure? {
        return Failure(hashed.error);
      }
      ghost var before := users.rows;
      var stored := users.Create(NewUser(input, hashed.value), id, createdAt, updatedAt);
      assert users.rows[..|before|] == before;
      r := IssueTokens(stored, firstNow, secondNow, entropy);
    }

    /**
     * Login: an unknown email and a wrong password give the same "invalid
     * credentials"; the ban is checked only once the password is right.
     */
    method Login(input: LoginInput, now: Time, firstNow: Time, secondNow: Time,
                 entropy: Result<nat -> Byte, string>, formatTime: Time -> string)
      returns (r: Result<AuthPayload, string>)
      ensures users.FindByEmail(input.email).Failure? ==> r == Failure(InvalidCredentials)
      ensures (users.FindByEmail(input.email).Success? &&
               !auth.checkPassword(input.password, users.FindByEmail(input.email).value.password)) ==>
        r == Failure(InvalidCredentials)
      ensures (users.FindByEmail(input.email).Success? &&
               auth.checkPassword(input.password, users.FindByEmail(input.email).value.password) &&
               Banned(users.FindByEmail(input.email).value, now)) ==>
        r == Failure(BannedPrefix + formatTime(users.FindByEmail(input.email).value.bannedUntil.value))
      ensures (users.FindByEmail(input.email).Success? &&
               auth.checkPassword(input.password, users.FindByEmail(input.email).value.password) &&
               !Banned(users.FindByEmail(input.email).value, now)) ==>
        r == Tokens(auth, users.FindByEmail(input.email).value, firstNow, secondNow, entropy)
      ensures r.Success? ==>
        && users.FindByEmail(input.email).Success?
        && auth.checkPassword(input.password, users.FindByEmail(input.email).value.password)
        && !Banned(users.FindByEmail(input.email).value, now)
        && r.value.user == ConvertUser(users.FindByEmail(input.email).value)
        && |r.value.refreshToken| == 44
    {
      var found := users.FindByEmail(input.email);
      if found.Failure? {
        return Failure(InvalidCredentials);
      }
      var user := found.value;
      if !auth.checkPassword(input.password, user.password) {
        return Failure(InvalidCredentials);
      }
      if user.bannedUntil.Some? && user.bannedUntil.value > now {
        return Failure(BannedPrefix + formatTime(user.bannedUntil.value));
      }
      r := IssueTokens(user, firstNow, secondNow, entropy);
    }

    /**
     * CreatePost: "unauthorized" and no change without claims; otherwise the
     * post is stored for the claims' user (visibility PUBLIC unless given)
     * and that user earns 5 reputation. The reputation update cannot make
     * the call fail.
     */
    method CreatePost(ctx: Context, input: CreatePostInput, id: ObjectId,
                      createdAt: Time, updatedAt: Time, awardedAt: Time)
      returns (r: Result<GqlPost, string>)
      requires Valid() && id !in posts.Ids()
      requires GetUserFromContext(ctx).Success? ==> input.codeSnippet.Some? && input.language.Some?
      modifies users, posts
      ensures Valid()
      ensures GetUserFromContext(ctx).Failure? ==>
        r == Failure(Unauthorized) && users.rows == old(users.rows) && posts.rows == old(posts.rows)
      ensures GetUserFromContext(ctx).Success? ==>
        var author := AuthorOf(GetUserFromContext(ctx).value.userId);
        && |posts.rows| == |old(posts.rows)| + 1
        && posts.rows[..|old(posts.rows)|] == old(posts.rows)
        && var p := posts.rows[|old(posts.rows)|];
        && p.id == id && p.authorId == author
        && p.content == input.content && p.codeSnippet == input.codeSnippet.value
        && p.language == input.language.value && p.tags == input.tags
        && p.visibility == input.visibility.GetOr(Public)
        && !p.deleted && p.likesCount == 0 && p.commentsCount == 0 && p.viewsCount == 0 && p.upvotesCount == 0
        && p.createdAt == createdAt && p.updatedAt == updatedAt
        && r == Success(ConvertPost(p))
        && |users.rows| == |old(users.rows)|
        && forall i :: 0 <= i < |users.rows| ==>
             users.rows[i] == if old(users.rows)[i].id == author
                              then UserRepository.AddReputation(old(users.rows)[i], 5, awardedAt)
                              else old(users.rows)[i]
    {
      var claims := GetUserFromContext(ctx);
      if claims.Failure? {
        return Failure(Unauthorized);
      }
      var author := AuthorOf(claims.value.userId);
      var visibility := if input.visibility.Some? then input.visibility.value else Public;
      var post := Post(NilObjectId, author, input.content, input.codeSnippet.value, input.language.value,
                       input.tags, visibility, 0, 0, 0, 0, false, 0, 0);
      ghost var before := posts.rows;
      var stored := posts.Create(post, id, createdAt, updatedAt);
      assert posts.rows[|before|] == stored;
      assert posts.rows[..|before|] == before;
      users.UpdateReputation(author, 5, awardedAt);
      r := Success(ConvertPost(stored));
    }
  }
}
