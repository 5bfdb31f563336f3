# DevThreads in Dafny

DevThreads is a small social network for developers: a Go GraphQL backend
over MongoDB (users, posts, reels, comments and engagements such as likes,
views and upvotes) and a Next.js frontend that talks to it through Apollo
Client. This project models the logic at the core of both halves and proves
what that logic promises.

Backend:

- **Repositories** (`post.go`, `reel.go`, `comment.go`, `user.go`,
  `engagement.go`). Each collection is a class whose `rows` field is the
  table in insertion order. Creation, soft deletion, `$set` updates and
  `$inc` counters are methods that change `rows`. Lookups and listings are
  functions over `rows`. `Query` states what the repositories ask of
  MongoDB: a match, filtering, a multi-key sort (the model breaks ties by
  insertion order), skip and
  limit (0 = no limit, a negative limit keeps at most its absolute value,
  a negative skip is an error).
- **Authentication** (`auth.go`, `middleware/auth.go`). This covers the
  claims an access token carries, the HMAC check in validation, the claim
  lookup in a request context, the GitHub authorisation URL and the 44-letter
  refresh token. The token is the base64url encoding of section 5 of
  RFC 4648, and a decoder shows it loses nothing. The three Gin handlers are
  functions that return a continue/abort verdict.
- **Mutation resolvers** (`mutation.go`). Signup, login, post creation, the
  two token stubs, the Cloudinary sign string and the conversions to the
  GraphQL shapes. A `Resolver` object holds the user and post tables.
- **Configuration** (`config.go`) and the two pieces of `main.go` that carry
  logic: the persisted-query cache and the port fallback.

Frontend:

- **Apollo client** (`apollo-client.js`): the `feed` field's merge rule and
  cache key, the HTTP auth header, the WebSocket connection parameters and
  the choice of link for each operation.
- **Components**: the post/reel modal's tag parsing, mutation variables,
  reset and submit guard (`PostModal.jsx`); the optimistic like and upvote
  toggles (`PostCard.jsx`, `ReelCard.jsx`); the reel duration label; the
  sidebar's level, progress bar, active link and logout (`Sidebar.jsx`);
  and the signup form's guard chain and session storage
  (`app/signup/page.jsx`). `localStorage` is a class over a string map.

Things the model cannot see are parameters:

- bcrypt, JWT signing, and what the JWT library reads from a token string
  (a `JwtParse` value).
- SHA-256, `crypto/rand` (a byte source that may fail) and
  `time.ParseDuration`.
- Every `time.Now()` reading, and every fresh ObjectID (required to be new
  to its table).
- `JSON.parse`, and `validateEmail`/`validateUsername`.
  frontend/lib/utils.js is not part of this model.

Integers are unbounded. JavaScript's `%` and `parseInt` are written out
(`Text.JsRem`, `Text.ParseIntJs`) because they differ from Dafny's.

Two details of the frontend code that the model keeps:

- With no stored token, the HTTP link sends an empty `authorization` header
  rather than leaving it out.
- `merge` spreads `existing.posts` and `incoming.posts` with no guard.

## Model

| member | source | states |
|---|---|---|
| Middleware.BearerToken | backend/internal/middleware/auth.go:22-27 | a token is read only from a header that is "Bearer", one space, and that token, which holds no space |
| Middleware.BearerTokenIff | backend/internal/middleware/auth.go:22-29 | a header yields a token exactly when it is "Bearer", one space, and a token holding no space |
| Middleware.DoubleSpaceRejected | backend/internal/middleware/auth.go:23-27 | "Bearer" followed by two spaces splits into three pieces and is ignored |
| Middleware.AuthMiddleware | backend/internal/middleware/auth.go:13-42 | never aborts; an empty, malformed or invalid header leaves the context unchanged; a valid bearer token adds exactly the validated claims under "user" |
| Middleware.RequireAuth | backend/internal/middleware/auth.go:46-56 | aborts with 401 "Unauthorized" if and only if the context holds no claims, otherwise continues unchanged |
| Middleware.RequireAdmin | backend/internal/middleware/auth.go:59-69 | aborts with 403 "Forbidden" if and only if there are no claims or they are not an admin's |
| Middleware.AdminImpliesAuthenticated | backend/internal/middleware/auth.go:46-69 | any request that passes the admin check also passes the authentication check |
| Middleware.ValidBearerAuthenticates | backend/internal/middleware/auth.go:22-56 | a well-formed bearer header with an accepted token reaches the resolvers with those claims and passes RequireAuth; it passes RequireAdmin exactly for admin claims |
| Middleware.MissingTokenUnauthorized | backend/internal/middleware/auth.go:16-27 | a request with no usable bearer token and no claims is refused by RequireAuth with 401 |
| Auth.GetUserFromContext | backend/internal/auth/auth.go:100-106 | returns the stored claims unchanged when the "user" key holds claims, and the error "user not found in context" otherwise |
| Auth.UnixOf | backend/internal/auth/auth.go:61-62 | whole seconds of an instant, rounded down |
| Auth.AccessTokenClaims | backend/internal/auth/auth.go:55-64 | the claims carry the given user ID, username and admin flag; `exp` is the first clock reading plus the access expiry and `iat` the second reading, both in whole seconds |
| Auth.ValidateAccessToken | backend/internal/auth/auth.go:80-97 | a non-HMAC signing method is refused; otherwise claims are returned if and only if the library reports no error and a valid token |
| Auth.RandomBuffer | backend/internal/auth/auth.go:72-73 | the 32 bytes are the first 32 values of the random source |
| Auth.GenerateRefreshToken | backend/internal/auth/auth.go:71-77 | a failing source gives "" and its error; otherwise a 44-letter base64url text that decodes back to the 32 random bytes |
| Auth.PrefixHasNoAmpersand | backend/internal/auth/auth.go:111 | the fixed authorise prefix holds no '&' |
| Auth.GetGithubOAuthURL | backend/internal/auth/auth.go:109-115 | the URL starts with the authorise endpoint followed by the client ID as given, and its length is that of the fixed parts plus the two unescaped values |
| Auth.GithubOAuthURLParams | backend/internal/auth/auth.go:109-115 | the URL's query splits into exactly client_id, redirect_uri and scope=user:email carrying the two values verbatim when neither holds '&'; values are not escaped |
| Base64Url.Encode | backend/internal/auth/auth.go:76 | `base64.URLEncoding` output: whole groups of four letters, with the pad '=' only among the last two letters |
| Base64Url.Decode | backend/internal/auth/auth.go:76 | the decoder that shows the encoding loses nothing: only whole groups of four letters decode, to three bytes per group (the last to one, two or three) |
| Base64Url.EncodedLength | backend/internal/auth/auth.go:76 | the encoding takes four letters per started group of three bytes |
| Base64Url.EncodeInAlphabet | backend/internal/auth/auth.go:76 | every letter of the encoding is in the URL-safe alphabet or is the pad '=' |
| Base64Url.DecodeEncode | backend/internal/auth/auth.go:76 | decoding an encoding gives back the bytes |
| Base64Url.DecodeEncodeStep | backend/internal/auth/auth.go:76 | a full group of four letters in front of a decodable rest decodes to its three bytes followed by the rest's bytes |
| Base64Url.EncodedLength32 | backend/internal/auth/auth.go:72-76 | 32 bytes encode to 44 letters |
| ObjectIds.Hex | backend/graph/resolver/mutation.go:223 | an ObjectID's text is 24 characters |
| ObjectIds.FromHex | backend/graph/resolver/mutation.go:261 | only a 24-character text can be read as an ObjectID |
| ObjectIds.FromHexHex | backend/graph/resolver/mutation.go:223-261 | reading back the hex text of an ObjectID gives the same ObjectID |
| ObjectIds.HexInjective | backend/graph/resolver/mutation.go:223 | distinct ObjectIDs have distinct hex texts |
| Query.FindOne | backend/internal/repository/user.go:48-58 | some row matches if and only if a row is returned, and the row returned is a stored row that matches |
| Query.FirstIndex | backend/internal/repository/user.go:48-58 | the first matching row: it matches and no earlier row does |
| Query.Filter | backend/internal/repository/post.go:81 | keeps exactly the stored rows the filter accepts, and no others |
| Query.FilterSingle | backend/internal/repository/post.go:81 | a single row is kept exactly when the filter accepts it |
| Query.FilterConcat | backend/internal/repository/post.go:81 | filtering a concatenation is concatenating the filtered parts, so order and repetitions are kept |
| Query.UpdateWhere | backend/internal/repository/post.go:51-55 | matching rows are replaced by the update of themselves; other rows and the length are unchanged |
| Query.SortByKey | backend/internal/repository/post.go:83-93 | the sort is a permutation of its input |
| Query.SortByKeySorted | backend/internal/repository/post.go:83-93 | the sorted rows are in key order |
| Query.Take | backend/internal/repository/post.go:96 | a limit of 0 keeps every row; a limit of n keeps the first min(abs(n), length) rows |
| Query.Page | backend/internal/repository/post.go:95-98 | a negative skip is an error; otherwise the run of rows after the first `skip`, at most `limit` of them |
| Query.Select | backend/internal/repository/post.go:95-111 | every row returned is a stored row the filter accepts, in key order, at most `limit` of them; with no skip and no limit they are exactly the accepted rows |
| Query.SelectPage | backend/internal/repository/post.go:95-98 | a page of sorted accepted rows is sorted and holds only accepted stored rows; with no skip and no limit it is all of them |
| Query.SortedAccepted | backend/internal/repository/post.go:81-93 | the accepted rows in key order are sorted and each is a stored row the filter accepts |
| Query.FindOneAppendNew | backend/internal/repository/user.go:25-34 | a row appended to a table where no row matched is the one a later find returns |
| PostRepository.Bump | backend/internal/repository/post.go:61-77 | `$inc` moves only the named counter by the delta |
| PostRepository.ApplyPatch | backend/internal/repository/post.go:51-55 | `$set` gives each field in the patch its new value and sets `updated_at`; the ID, author, counters and creation time never change |
| PostRepository.PostRepository.constructor | backend/internal/repository/post.go:19-23 | an empty table |
| PostRepository.AppendFreshId | backend/internal/repository/post.go:25-37 | a live post with an unused ID keeps the IDs distinct and is the one found by that ID |
| PostRepository.PostRepository.Create | backend/internal/repository/post.go:25-37 | the post gets the fresh ID and clock readings, is not deleted and has zero counters whatever the caller sent; it is appended and found by ID |
| PostRepository.PostRepository.FindByID | backend/internal/repository/post.go:39-49 | succeeds if and only if a non-deleted post has that ID; otherwise "post not found" |
| PostRepository.PostRepository.Update | backend/internal/repository/post.go:51-55 | the post with that ID gets the patch, deleted or not; no other row changes |
| PostRepository.PostRepository.Delete | backend/internal/repository/post.go:57-59 | a soft delete through Update: the row stays, marked deleted with a new `updated_at`, and FindByID no longer sees it |
| PostRepository.PostRepository.IncrementCount | backend/internal/repository/post.go:61-68 | the named counter of that post goes up by one, with no deleted filter; nothing else changes |
| PostRepository.PostRepository.DecrementCount | backend/internal/repository/post.go:70-77 | the named counter goes down by one with no floor at zero; nothing else changes |
| PostRepository.PostRepository.Feed | backend/internal/repository/post.go:79-112 | only non-deleted PUBLIC posts; TRENDING sorted by likes, upvotes and comments descending, any other filter newest first; negative skip fails; at most `limit`; with no skip or limit, all such posts |
| PostRepository.PostRepository.FindByAuthor | backend/internal/repository/post.go:114-131 | the author's non-deleted posts of any visibility, newest first, at most `limit` |
| PostRepository.PostRepository.List | backend/internal/repository/post.go:165-183 | every post, deleted ones included, newest first, after skip and limit |
| PostRepository.FeedHidesDeleted | backend/internal/repository/post.go:39-81 | every post a feed page shows is one FindByID finds |
| ReelRepository.Increment | backend/internal/repository/reel.go:59-66 | `$inc` adds one to the named counter only |
| ReelRepository.ReelRepository.constructor | backend/internal/repository/reel.go:19-23 | an empty table |
| ReelRepository.ReelRepository.Create | backend/internal/repository/reel.go:25-36 | fresh ID and clock readings, not deleted, likes, comments and views at zero; appended and found by ID |
| ReelRepository.ReelRepository.FindByID | backend/internal/repository/reel.go:38-48 | succeeds if and only if a non-deleted reel has that ID; otherwise "reel not found" |
| ReelRepository.ReelRepository.Delete | backend/internal/repository/reel.go:50-57 | soft: that reel is marked deleted with a new `updated_at` and is hidden from FindByID; no other row changes |
| ReelRepository.ReelRepository.IncrementCount | backend/internal/repository/reel.go:59-66 | the named counter of that reel goes up by one; nothing else changes |
| ReelRepository.ReelRepository.List | backend/internal/repository/reel.go:68-87 | non-deleted PUBLIC reels, newest first, after skip and limit |
| ReelRepository.ReelRepository.FindByAuthor | backend/internal/repository/reel.go:89-106 | the author's non-deleted reels of any visibility, newest first, at most `limit` |
| ReelRepository.ReelRepository.Trending | backend/internal/repository/reel.go:108-129 | non-deleted PUBLIC reels with more likes first and, among equal likes, more views first; no skip; at most `limit` |
| ReelRepository.TrendingOrder | backend/internal/repository/reel.go:111-114 | sorted by the trending key means likes descending, then views descending |
| CommentRepository.NewestFirst | backend/internal/repository/comment.go:50 | sorted by the newest key means non-increasing creation time |
| CommentRepository.OldestFirst | backend/internal/repository/comment.go:86 | sorted by the oldest key means non-decreasing creation time |
| CommentRepository.CommentRepository.constructor | backend/internal/repository/comment.go:19-23 | an empty table |
| CommentRepository.CommentRepository.Create | backend/internal/repository/comment.go:25-33 | fresh ID and clock reading, not deleted, zero likes; appended and found by ID |
| CommentRepository.CommentRepository.FindByID | backend/internal/repository/comment.go:35-45 | succeeds if and only if a non-deleted comment has that ID; otherwise "comment not found" |
| CommentRepository.CommentRepository.FindByPost | backend/internal/repository/comment.go:47-64 | only the post's top-level non-deleted comments, newest first, at most `limit`; with no limit, all of them |
| CommentRepository.CommentRepository.FindByReel | backend/internal/repository/comment.go:66-83 | the same, keyed on the reel |
| CommentRepository.CommentRepository.FindReplies | backend/internal/repository/comment.go:85-100 | exactly the non-deleted replies to the parent, oldest first, with no limit |
| CommentRepository.CommentRepository.Delete | backend/internal/repository/comment.go:102-109 | soft: only the `deleted` flag of that comment changes, with no timestamp, and FindByID no longer sees it |
| CommentRepository.CommentRepository.IncrementLikes | backend/internal/repository/comment.go:111-118 | that comment's likes go up by exactly one; nothing else changes |
| UserRepository.ApplyPatch | backend/internal/repository/user.go:84-88 | `$set` gives each field in the patch its new value and sets `updated_at`; the ID, password hash, reputation, GitHub ID and creation time never change |
| UserRepository.AddReputation | backend/internal/repository/user.go:90-100 | the reputation moves by exactly the delta, of any sign, and `updated_at` is set; every other field is unchanged |
| UserRepository.AddReputationTwice | backend/internal/repository/user.go:90-100 | two reputation updates add their deltas, and the later clock reading wins |
| UserRepository.NewestFirst | backend/internal/repository/user.go:129 | sorted by the newest key means non-increasing creation time |
| UserRepository.UserRepository.constructor | backend/internal/repository/user.go:19-23 | an empty table |
| UserRepository.AppendFreshId | backend/internal/repository/user.go:25-34 | a user with an unused ID keeps the IDs distinct and is the one found by that ID |
| UserRepository.UserRepository.Create | backend/internal/repository/user.go:25-34 | fresh ID and clock readings, reputation 0 and no admin rights whatever the caller sent; appended, found by ID, and found by email when no earlier user had that email |
| UserRepository.UserRepository.FindByID | backend/internal/repository/user.go:36-46 | succeeds if and only if a user has that ID; otherwise "user not found" |
| UserRepository.UserRepository.FindByEmail | backend/internal/repository/user.go:48-58 | the first user with that email, if and only if one exists; otherwise "user not found" |
| UserRepository.UserRepository.FindByUsername | backend/internal/repository/user.go:60-70 | a user with that username if and only if one exists; otherwise "user not found" |
| UserRepository.UserRepository.FindByGithubID | backend/internal/repository/user.go:72-82 | a user linked to that GitHub ID if and only if one exists, and no error when none does; the empty ID matches nobody |
| UserRepository.UserRepository.Update | backend/internal/repository/user.go:84-88 | the user with that ID gets the patch; no other row changes |
| UserRepository.UserRepository.UpdateReputation | backend/internal/repository/user.go:90-100 | that user's reputation moves by the delta with no floor; no other row changes |
| UserRepository.UserRepository.List | backend/internal/repository/user.go:125-143 | every user, newest first, after skip and limit; a negative skip fails |
| EngagementRepository.MatchCount | backend/internal/repository/engagement.go:39 | the count is positive if and only if some row has the key |
| EngagementRepository.RemoveFirst | backend/internal/repository/engagement.go:55 | removes one row when the key is present and nothing otherwise |
| EngagementRepository.MatchCountConcat | backend/internal/repository/engagement.go:39 | counting over two tables adds up |
| EngagementRepository.RemoveFirstCounts | backend/internal/repository/engagement.go:47-57 | after a delete, the key's count drops by one (or stays 0), and every other key's count is unchanged |
| EngagementRepository.FirstWithKey | backend/internal/repository/engagement.go:55 | the first row with the key: it has the key and no earlier row does |
| EngagementRepository.RemoveFirstSplice | backend/internal/repository/engagement.go:55 | a delete cuts out exactly the first row with the key, keeping the others in order |
| EngagementRepository.RemoveFirstMultiset | backend/internal/repository/engagement.go:55 | a delete takes out that one row and adds nothing |
| EngagementRepository.RemoveFirstKeepsIds | backend/internal/repository/engagement.go:55 | the rows a delete leaves still have distinct IDs |
| EngagementRepository.SpliceKeepsIds | backend/internal/repository/engagement.go:55 | cutting one row out of a table with distinct IDs leaves distinct IDs |
| EngagementRepository.AppendFreshId | backend/internal/repository/engagement.go:23-29 | an engagement with an unused ID keeps the IDs distinct |
| EngagementRepository.TwoCreatesOneDelete | backend/internal/repository/engagement.go:23-57 | after two engagements with the same key and one delete of it, the key still exists |
| EngagementRepository.EngagementRepository.constructor | backend/internal/repository/engagement.go:17-21 | an empty table |
| EngagementRepository.EngagementRepository.Create | backend/internal/repository/engagement.go:23-29 | fresh ID and clock reading, inserted with no duplicate check; afterwards the key exists and its count is one higher |
| EngagementRepository.EngagementRepository.Exists | backend/internal/repository/engagement.go:31-45 | true if and only if some row matches all four of user, target, target type and kind |
| EngagementRepository.EngagementRepository.Delete | backend/internal/repository/engagement.go:47-57 | at most one matching row is removed and the others stay in order |
| Config.GetEnv | backend/config/config.go:65-70 | the variable's value when it is non-empty, the default otherwise |
| Config.EmptyCountsAsUnset | backend/config/config.go:65-70 | a variable set to "" is read exactly like an unset one |
| Config.GetEnvNonEmpty | backend/config/config.go:65-70 | a non-empty default gives a non-empty value |
| Config.ParseDuration | backend/config/config.go:72-78 | the parsed duration, or 15 minutes on any parse error |
| Config.Load | backend/config/config.go:43-63 | each of the fifteen configurable fields is its variable's non-empty value or its default, the expiries read through parseDuration; the rate limit is fixed at 100 per minute |
| Config.LoadDefaults | backend/config/config.go:43-63 | with nothing set, every field takes its default: port 8080, development mode, the local database URI and name, the placeholder JWT secret, tokens of 15 minutes and 168 hours, the local GitHub callback and frontend URLs, and empty GitHub, Cloudinary and Redis settings |
| Config.LoadBadDurations | backend/config/config.go:50-51 | unreadable expiry settings both fall back to 15 minutes |
| Server.MapCache.constructor | backend/cmd/server/main.go:140-143 | a cache whose map is still nil |
| Server.MapCache.Get | backend/cmd/server/main.go:145-151 | a nil map gives no value; otherwise the value under the key, if and only if the key is present |
| Server.MapCache.Add | backend/cmd/server/main.go:153-158 | allocates the map if needed and stores the value, replacing any earlier one and leaving other keys alone |
| Server.CacheScenario | backend/cmd/server/main.go:145-158 | a fresh cache answers no value; an added key reads back and an overwrite wins; other keys stay absent |
| Server.ServerPort | backend/cmd/server/main.go:127-130 | the configured port, or "8080" when it is empty; never empty |
| Server.ServerPortOfLoad | backend/cmd/server/main.go:127-130 | the fallback never changes the port the configuration produced |
| Mutation.ConvertUser | backend/graph/resolver/mutation.go:221-234 | the API user carries the stored fields, and its ID text reads back as the stored ID |
| Mutation.ConvertPost | backend/graph/resolver/mutation.go:288-302 | the API post carries the stored fields and counters, and its ID text reads back as the stored ID |
| Mutation.ConvertUserIdInjective | backend/graph/resolver/mutation.go:223 | two users with the same API ID have the same stored ID |
| Mutation.AuthorOf | backend/graph/resolver/mutation.go:261 | the claims' user ID read as an ObjectID, or the zero ID when it cannot be read |
| Mutation.AuthorOfHex | backend/graph/resolver/mutation.go:62-261 | a token minted for a stored user credits posts to that same user |
| Mutation.SignString | backend/graph/resolver/mutation.go:241 | starts with "folder=" and the folder, ends with the API secret, and has the length of its five parts |
| Mutation.SignStringFields | backend/graph/resolver/mutation.go:241 | with no '&' in the folder or secret, the text splits into exactly the folder and timestamp parameters |
| Mutation.RefreshToken | backend/graph/resolver/mutation.go:207-212 | always fails with "refresh token functionality not fully implemented" |
| Mutation.Logout | backend/graph/resolver/mutation.go:215-218 | always succeeds |
| Mutation.GetCloudinarySignature | backend/graph/resolver/mutation.go:237-252 | the timestamp is the clock in whole seconds, the signature is the digest of the sign string, and cloud name and API key come from the configuration |
| Mutation.Resolver.constructor | backend/graph/resolver/resolver.go:27 | a resolver over the given tables and services |
| Mutation.Tokens | backend/graph/resolver/mutation.go:61-79 | success exactly when signing and the random source both succeed; the access token is the one signed over the user's claims, the refresh token is 44 letters that decode back to the 32 random bytes, the user is convertUser of the stored user; a signing failure is reported before a random-source failure |
| Mutation.Resolver.IssueTokens | backend/graph/resolver/mutation.go:61-79 | the access token is signed over the user's claims, then a 44-letter refresh token; the first failure is the error; the result is exactly `Tokens` |
| Mutation.Resolver.Signup | backend/graph/resolver/mutation.go:29-80 | a taken email is reported before a taken username, and neither changes the table; otherwise the user is stored with reputation 0 and no admin rights, found by email, and the result is exactly `Tokens` of the stored user, so it succeeds whenever signing and the random source do |
| Mutation.Resolver.Login | backend/graph/resolver/mutation.go:83-116 | unknown email and wrong password give the same "invalid credentials"; a ban ending after now is checked only after the password; a known email, the right password and no current ban give exactly `Tokens` of that user, so login succeeds whenever signing and the random source do, and any success came from that path |
| Mutation.Resolver.CreatePost | backend/graph/resolver/mutation.go:255-285 | without claims, "unauthorized" and no change; otherwise the post is stored for the claims' user with visibility PUBLIC unless given, and that user gains exactly 5 reputation whatever the update does |
| ApolloClient.Merge | frontend/lib/apollo-client.js:55-63 | with nothing cached or no truthy cursor the incoming page replaces; otherwise the cached posts then the incoming ones, with `hasMore` and `cursor` from the incoming page |
| ApolloClient.MergeTwice | frontend/lib/apollo-client.js:59-62 | two appends keep every post in arrival order |
| ApolloClient.FeedKeyFilterOnly | frontend/lib/apollo-client.js:54 | two feed queries share a cache entry exactly when their filters agree; changing the cursor or the limit never changes the entry |
| ApolloClient.WriteFeed | frontend/lib/apollo-client.js:53-63 | a result is merged into its filter's entry and no other entry changes |
| ApolloClient.FiltersDoNotShare | frontend/lib/apollo-client.js:54 | a write under one filter leaves another filter's entry alone |
| ApolloClient.FeedPageAlwaysReplaces | frontend/app/feed/page.jsx:29-32 | the feed page never sends a cursor, so each result replaces its filter's entry |
| ApolloClient.StoredToken | frontend/lib/apollo-client.js:11 | no token outside a browser; the stored one inside |
| ApolloClient.AuthHeaders | frontend/lib/apollo-client.js:10-18 | `authorization` is "Bearer " plus the token when a non-empty token is stored and "" otherwise; other headers are kept |
| ApolloClient.WsAuthorization | frontend/lib/apollo-client.js:27-29 | "Bearer " plus the stored token, or "Bearer null" when none is stored |
| ApolloClient.NoTokenHeadersDiffer | frontend/lib/apollo-client.js:15-28 | with no stored token the HTTP link sends "" and the socket "Bearer null" |
| ApolloClient.ClientHeaderReadByBackend | frontend/lib/apollo-client.js:15 | the header the client sends for a stored token yields that token to the backend's bearer parser, and the empty header yields none |
| ApolloClient.Route | frontend/lib/apollo-client.js:35-45 | the WebSocket is used if and only if in a browser for a subscription; everything else goes over HTTP |
| Text.Split | backend/internal/middleware/auth.go:23 | at least one piece, none holding the separator |
| Text.JoinSplit | frontend/components/PostModal.jsx:53 | gluing the pieces back with the separator gives the original text |
| Text.SplitJoin | frontend/components/PostModal.jsx:53 | splitting a join of separator-free pieces gives back the pieces |
| Text.SplitConcat | frontend/components/PostModal.jsx:53 | the pieces of two strings joined by a separator are the pieces of the first followed by those of the second |
| Text.Trim | frontend/components/PostModal.jsx:54 | a slice of the text with no whitespace at either end, and only whitespace cut away before and after it |
| Text.TrimIdempotent | frontend/components/PostModal.jsx:54 | trimming twice is trimming once |
| Text.IntToString | frontend/components/ReelCard.jsx:67 | decimal digits, with a leading '-' for a negative number |
| Text.IntToStringOnlyDigits | backend/graph/resolver/mutation.go:241 | a number written out contains no character other than digits and a leading minus sign |
| Text.ParseIntJs | frontend/components/PostModal.jsx:81 | NaN exactly when no digits follow the optional whitespace and sign |
| Text.ParseIntJsIntToString | frontend/components/PostModal.jsx:81 | parseInt reads back every integer that String(n) writes |
| Text.ParseIntJsNatToString | frontend/components/PostModal.jsx:81 | parseInt reads back the digits of a natural number |
| Text.ParseIntJsNegative | frontend/components/PostModal.jsx:81 | parseInt reads a minus sign followed by digits as the negated number |
| Text.JsRem | frontend/components/Sidebar.jsx:95 | JavaScript's remainder: it differs from the dividend by a multiple of the divisor, takes the dividend's sign, and its magnitude is below the divisor |
| Text.PadStart | frontend/components/ReelCard.jsx:67 | the text kept at the end, filled in front up to the width |
| PostModal.TrimAll | frontend/components/PostModal.jsx:54 | each piece trimmed, in order |
| PostModal.ParseTags | frontend/components/PostModal.jsx:52-55 | every tag is a non-empty, trimmed, comma-free piece of the comma-split input |
| PostModal.ParseTagsConcat | frontend/components/PostModal.jsx:52-55 | the tags of text with a comma in it are the tags before the comma followed by the tags after it, in order and with repeats |
| PostModal.ParseTagsPiece | frontend/components/PostModal.jsx:52-55 | a piece without a comma gives its trim as its only tag, or no tag when the trim is empty |
| PostModal.TrimAllConcat | frontend/components/PostModal.jsx:54 | trimming the pieces one by one commutes with concatenating lists of pieces |
| PostModal.ParseTagsJoin | frontend/components/PostModal.jsx:52-55 | tags joined with commas parse back to the same tags |
| PostModal.TagsOrNull | frontend/components/PostModal.jsx:63 | null exactly when no tag survives |
| PostModal.OrNull | frontend/components/PostModal.jsx:61-62 | an empty text becomes null, any other text is sent as is |
| PostModal.DefaultDuration | frontend/components/PostModal.jsx:18 | the default duration field reads as 30 |
| PostModal.PostModal.constructor | frontend/components/PostModal.jsx:9-18 | every field starts at its default |
| PostModal.PostModal.HandleClose | frontend/components/PostModal.jsx:36-46 | every field returns to its default ("", "javascript", false, 30) |
| PostModal.PostModal.SubmitDisabled | frontend/components/PostModal.jsx:258 | disabled if and only if loading, a post with empty content, or a reel with an empty video URL |
| PostModal.PostModal.Submit | frontend/components/PostModal.jsx:48-88 | a post sends the content, the snippet and language as typed or null when empty, the parsed tags or null, and PUBLIC; a reel sends the title and the content as description, each as typed or null when empty, the video URL, the parsed duration, the tags or null, and PUBLIC |
| PostModal.SubmitSendsTypedTags | frontend/components/PostModal.jsx:52-63 | a tags field typed as clean tags joined by commas is sent as exactly those tags in order, or null when there are none |
| LikeToggle.Optimistic | frontend/components/PostCard.jsx:20-22 | a click flips the flag and moves the count by +1 when now on, -1 otherwise |
| LikeToggle.ClickAsWritten | frontend/components/PostCard.jsx:18-30 | on success the optimistic state stays; on failure the flag returns but the count moves the wrong way from the pre-click count |
| LikeToggle.FailedClickDrifts | frontend/components/PostCard.jsx:28 | a failed click always leaves the count one away from where it was |
| LikeToggle.FailedLikeShowsFour | frontend/components/PostCard.jsx:28 | a failed like on 5 likes shows 4 likes, not liked |
| LikeToggle.ClickRestoring | frontend/components/PostCard.jsx:18-30 | the corrected rule: a failed click restores flag and count exactly |
| LikeToggle.ClickRestoringAgrees | frontend/components/PostCard.jsx:18-30 | the corrected rule agrees with the code on success and differs from it on every failure |
| LikeToggle.TwoClicksCancel | frontend/components/PostCard.jsx:20-22 | two successful clicks give back the starting state |
| LikeToggle.RepeatFailed | frontend/components/PostCard.jsx:27-28 | n failed likes in a row lower the count by n |
| PostCard.PostCard.constructor | frontend/components/PostCard.jsx:10-13 | flags default to false and counts to 0 when the post leaves them out |
| PostCard.PostCard.HandleLike | frontend/components/PostCard.jsx:18-30 | the like pair takes one click as written; the upvote pair is untouched |
| PostCard.PostCard.HandleUpvote | frontend/components/PostCard.jsx:32-44 | the upvote pair takes one click as written; the like pair is untouched |
| PostCard.FailedLikeScenario | frontend/components/PostCard.jsx:18-44 | a failed like on a post with 5 likes and 7 upvotes leaves it showing 4 likes, not liked, and 7 upvotes |
| ReelCard.ReelCard.constructor | frontend/components/ReelCard.jsx:10-11 | flag defaults to false and count to 0 |
| ReelCard.ReelCard.HandleLike | frontend/components/ReelCard.jsx:15-27 | one click under the same rule as a post's like |
| ReelCard.DurationLabel | frontend/components/ReelCard.jsx:67 | for a non-negative duration: the minutes, a colon, then exactly two digits |
| ReelCard.SecondsTwoDigits | frontend/components/ReelCard.jsx:67 | seconds below 60 are written as two digits reading back as themselves |
| ReelCard.DurationLabelReadsBack | frontend/components/ReelCard.jsx:67 | the label splits on ':' into minutes and seconds with minutes*60 + seconds equal to the duration and seconds below 60 |
| Sidebar.Level | frontend/components/Sidebar.jsx:88 | one level per hundred points, starting at 1 |
| Sidebar.Progress | frontend/components/Sidebar.jsx:95 | within [0, 100) for a non-negative reputation, within (-100, 0] for a negative one |
| Sidebar.LevelAndProgress | frontend/components/Sidebar.jsx:88-95 | level and progress give the reputation back |
| Sidebar.LevelMonotone | frontend/components/Sidebar.jsx:88 | more reputation never means a lower level |
| Sidebar.IsActive | frontend/components/Sidebar.jsx:27 | active exactly when the path is the link's href |
| Sidebar.AtMostOneActive | frontend/components/Sidebar.jsx:20-27 | at most one navigation link is active on any page |
| Sidebar.ShowAdminLink | frontend/components/Sidebar.jsx:66 | shown exactly for a loaded admin user |
| Sidebar.Sidebar.constructor | frontend/components/Sidebar.jsx:11 | no user loaded |
| Sidebar.Sidebar.LoadUser | frontend/components/Sidebar.jsx:13-18 | the stored user is parsed only when the key holds non-empty text |
| Sidebar.Sidebar.HandleLogout | frontend/components/Sidebar.jsx:29-34 | exactly the three session keys are removed; nothing else is touched |
| Sidebar.LoginThenLogout | frontend/app/page.jsx:17-21 | logging in and then out leaves the store as it was outside the session keys |
| Browser.LocalStorage.constructor | frontend/components/Sidebar.jsx:14 | a store with the given items |
| Browser.LocalStorage.GetItem | frontend/components/Sidebar.jsx:14 | the stored text, or null for a missing key |
| Browser.LocalStorage.SetItem | frontend/app/page.jsx:18 | the key now holds the value; other keys are untouched |
| Browser.LocalStorage.RemoveItem | frontend/components/Sidebar.jsx:30 | the key is gone; other keys are untouched |
| Browser.LocalStorage.StoreSession | frontend/app/page.jsx:17-21 | the two tokens and the user go under the three session keys and nothing else changes |
| Browser.ClearAfterStore | frontend/components/Sidebar.jsx:29-32 | removing the session keys after storing a session leaves what was there outside them |
| SignupPage.HandleChange | frontend/app/signup/page.jsx:59-64 | the named field takes the value; every other field keeps its own |
| SignupPage.SignupPage.constructor | frontend/app/signup/page.jsx:13-19 | four empty fields and no error |
| SignupPage.SignupPage.Change | frontend/app/signup/page.jsx:59-64 | the form becomes HandleChange of the old form; the error stays |
| SignupPage.SignupPage.HandleSignup | frontend/app/signup/page.jsx:33-57 | email, username and password are checked in that order, the first failure sets its message and nothing is sent; the form is sent unchanged exactly when all pass |
| SignupPage.OnCompleted | frontend/app/signup/page.jsx:22-27 | the two tokens and the user's JSON go under the three session keys |
| SignupPage.ShortPasswordScenario | frontend/app/signup/page.jsx:47-50 | a five-character password is never sent |

## Left out

- `PostRepository.Search` and `UserRepository.Search` are left out. They depend on MongoDB's `$regex` semantics.
- The `Count` methods of the repositories are left out. They take arbitrary BSON filters.
- `LoginWithGithub` is left out. It makes HTTP calls to GitHub.
- Driver and database errors (insert, find and update failures) are left out: every repository call here succeeds. Connecting to MongoDB is left out (backend/internal/database/database.go is not part of this model).
- The server, route, CORS and transport wiring of `main.go` are left out. So is `resolver.go`, apart from a constructor that holds the two tables.
- The model does not cover concurrency: the unsynchronised `MapCache` under parallel requests, and Apollo's event loop, reconnection and cache-and-network re-emission.
- Query.SortByKey: MongoDB returns documents with equal sort keys in an unspecified order, which may differ between two queries. The natural order that `FindOne` (FindByEmail) and `DeleteOne` (EngagementRepository.Delete) follow is unspecified too. The model fixes both to insertion order. Ties are common: every new post or reel starts with zero counters (backend/internal/repository/post.go:83-93, backend/internal/repository/reel.go:108-116). So the model's exact page window (`Query.Select`) is one of the answers the database may give. In the database, skip-based paging over tied rows may repeat or omit a row across pages. The repository contracts that hold under any tie order are sortedness, the limit and the multiset of rows.
- Models.Time: times keep full clock precision (nanoseconds). The Go driver stores `time.Time` as a BSON datetime, which keeps only milliseconds. So the model's read-back equality after Create (`FindByID(id) == Success(stored)` in the repositories, and the user that `Mutation.Resolver.Signup` returns) holds in the database only up to the millisecond. The strict newest-first order of rows created within one millisecond also belongs to the model: in the database they tie, and the order of tied rows is unspecified (see Query.SortByKey above).
- Go's 64-bit integers and JavaScript's doubles are unbounded here. Overflow and `NaN` counts are not modelled.
- Strings are sequences of characters. JavaScript's UTF-16 length and Unicode case rules are not modelled.
- Update's arbitrary `$set` document is narrowed to the fields the code writes (`PostPatch`, `UserPatch`). No caller sets `github_id`, so `UserPatch` has no such field. `$inc`'s field name is narrowed to the counters the code uses (`Counter`).
- bcrypt, JWT signing and parsing, SHA-256, `crypto/rand`, `time.ParseDuration`, time formatting, `JSON.parse` and the form validators are left out. Each is a parameter or an opaque value.
- Text.ParseIntJs: reads radix 10 only. Called without a radix, JavaScript's parseInt reads a "0x" or "0X" prefix as hexadecimal ("0x1A" is 26, "0x" is NaN), while the model reads the leading "0" and gives 0. The only caller passes the text of a `type="number"` input (frontend/components/PostModal.jsx:81, 147), which cannot hold such a prefix.
- Mutation.Resolver.Signup requires a display name whenever the checks pass, because the code dereferences it. Mutation.Resolver.CreatePost likewise requires a snippet and a language whenever claims are present. The modal sends null for an empty snippet (frontend/components/PostModal.jsx:61), and the model does not cover the resulting failure.
- Mutation.Resolver.Signup: when issuing a token fails after the user is stored, the user stays stored. The model states this; it does not roll back.
- Rendering, styling, routing after login or logout, and the other pages and components are left out.

## Findings

| source | as written | input that shows it | evidently intended | confidence | as-written member | corrected member |
|---|---|---|---|---|---|---|
| frontend/components/PostCard.jsx:28 (also :42 and frontend/components/ReelCard.jsx:25) | on a failed mutation the count is set to the pre-click count minus one (failed like) or plus one (failed unlike) | a like on an unliked post with 5 likes whose mutation fails: the card shows 4 likes, not liked | the count returns to its pre-click value, 5 | not executed | LikeToggle.FailedLikeShowsFour | LikeToggle.ClickRestoringAgrees |
