/**
 * The data contract of frontend/lib/apollo-client.js: the cache policy of
 * the `feed` field (its merge rule and its key), the header the HTTP link
 * adds, the WebSocket connection parameters and the choice of link per
 * operation. Whether the code runs in a browser (`typeof window`) and what
 * `localStorage` holds under "accessToken" are parameters.
 */
module ApolloClient {
  import opened Wrappers
  import Middleware

  // ----- the feed field policy -----

  /** A page of the feed as the cache holds it. */
  datatype FeedPage<P> = FeedPage(posts: seq<P>, hasMore: bool, cursor: Option<string>)

  /** The variables a feed query is sent with. */
  datatype FeedArgs = FeedArgs(filter: Option<string>, cursor: Option<string>, limit: Option<int>)

  /** `args?.cursor` is truthy: present and not the empty string. */
  predicate HasCursor(args: Option<FeedArgs>)
  {
    args.Some? && args.value.cursor.Some? && args.value.cursor.value != ""
  }

  /**
   * merge: with nothing cached, or with no (truthy) cursor, the incoming
   * page replaces the cached one; otherwise the incoming page is taken with
   * the cached posts in front of its own.
   */
  function Merge<P>(existing: Option<FeedPage<P>>, incoming: FeedPage<P>, args: Option<FeedArgs>): (r: FeedPage<P>)
    ensures existing.None? ==> r == incoming
    ensures !HasCursor(args) ==> r == incoming
    ensures existing.Some? && HasCursor(args) ==>
      && r.posts == existing.value.posts + incoming.posts
      && |r.posts| == |existing.value.posts| + |incoming.posts|
      && r.hasMore == incoming.hasMore && r.cursor == incoming.cursor
  {
    if existing.None? then incoming
    else if !HasCursor(args) then incoming
    else incoming.(posts := existing.value.posts + incoming.posts)
  }

  /** Appending is associative: merging two pages one after the other keeps every post in arrival order. */
  lemma MergeTwice<P>(cached: FeedPage<P>, a: FeedPage<P>, b: FeedPage<P>, args: FeedArgs)
    requires HasCursor(Some(args))
    ensures Merge(Some(Merge(Some(cached), a, Some(args))), b, Some(args)).posts == cached.posts + a.posts + b.posts
  {
  }

  /** keyArgs: the cache entry of a feed query is named by its filter alone. */
  function FeedKey(args: FeedArgs): Option<string>
  {
    args.filter
  }

  /** Two feed queries share a cache entry exactly when their filters agree, whatever their cursor and limit. */
  lemma FeedKeyFilterOnly(a: FeedArgs, b: FeedArgs, cursor: Option<string>, limit: Option<int>)
    ensures FeedKey(a) == FeedKey(b) <==> a.filter == b.filter
    ensures FeedKey(a.(cursor := cursor, limit := limit)) == FeedKey(a)
  {
  }

  /** The cached feed entries, one per key. */
  type FeedCache<P> = map<Option<string>, FeedPage<P>>

  /** A feed result written into the cache: merged into its key's entry only. */
  function WriteFeed<P>(cache: FeedCache<P>, args: FeedArgs, incoming: FeedPage<P>): (c: FeedCache<P>)
    ensures FeedKey(args) in c
    ensures c[FeedKey(args)] ==
      Merge(if FeedKey(args) in cache then Some(cache[FeedKey(args)]) else None, incoming, Some(args))
    ensures forall k :: k != FeedKey(args) ==> (k in c <==> k in cache)
    ensures forall k :: k != FeedKey(args) && k in cache ==> c[k] == cache[k]
  {
    var key := FeedKey(args);
    cache[key := Merge(if key in cache then Some(cache[key]) else None, incoming, Some(args))]
  }

  /** Different filters never share a list: a write under one filter leaves another's entry alone. */
  lemma FiltersDoNotShare<P>(cache: FeedCache<P>, args: FeedArgs, incoming: FeedPage<P>, other: Option<string>)
    requires other != args.filter && other in cache
    ensures other in WriteFeed(cache, args, incoming) && WriteFeed(cache, args, incoming)[other] == cache[other]
  {
  }

  /**
   * The feed page asks for a filter and a limit of 20 and never a cursor,
   * so every result it receives replaces its filter's entry.
   */
  lemma FeedPageAlwaysReplaces<P>(cache: FeedCache<P>, filter: string, incoming: FeedPage<P>)
    ensures var args := FeedArgs(Some(filter), None, Some(20));
      WriteFeed(cache, args, incoming)[Some(filter)] == incoming
  {
  }

  // ----- headers and connection parameters -----

  /** What the browser's localStorage has under "accessToken", or None outside a browser. */
  function StoredToken(hasWindow: bool, stored: Option<string>): (t: Option<string>)
    ensures !hasWindow ==> t == None
    ensures hasWindow ==> t == stored
  {
    if hasWindow then stored else None
  }

  /**
   * authLink: the incoming headers with `authorization` set to "Bearer "
   * and the token when a non-empty token is stored, and to the empty string
   * otherwise (the header is sent empty, not left out).
   */
  function AuthHeaders(headers: map<string, string>, hasWindow: bool, stored: Option<string>): (h: map<string, string>)
    ensures "authorization" in h
    ensures forall k :: k != "authorization" ==> (k in h <==> k in headers)
    ensures forall k :: k != "authorization" && k in headers ==> h[k] == headers[k]
    ensures hasWindow && stored.Some? && stored.value != "" ==> h["authorization"] == "Bearer " + stored.value
    ensures !(hasWindow && stored.Some? && stored.value != "") ==> h["authorization"] == ""
  {
    var token := StoredToken(hasWindow, stored);
    headers["authorization" := if token.Some? && token.value != "" then "Bearer " + token.value else ""]
  }

  /**
   * wsLink's connectionParams, computed afresh at each connection: the
   * stored token interpolated after "Bearer ", which prints a missing
   * token as "null".
   */
  function WsAuthorization(stored: Option<string>): (a: string)
    ensures stored.Some? ==> a == "Bearer " + stored.value
    ensures stored.None? ==> a == "Bearer null"
    ensures a[..7] == "Bearer "
  {
    "Bearer " + (if stored.Some? then stored.value else "null")
  }

  /** Without a stored token the two links disagree: HTTP sends "", the socket "Bearer null". */
  lemma NoTokenHeadersDiffer(headers: map<string, string>)
    ensures AuthHeaders(headers, true, None)["authorization"] == ""
    ensures WsAuthorization(None) == "Bearer null"
  {
  }

  /**
   * The header the client sends is one the backend reads: a stored token
   * without spaces comes back out of the bearer parser unchanged, and the
   * empty header a client without a token sends carries no token.
   */
  lemma ClientHeaderReadByBackend(headers: map<string, string>, token: string)
    requires token != "" && ' ' !in token
    ensures Middleware.BearerToken(AuthHeaders(headers, true, Some(token))["authorization"]) == Some(token)
    ensures Middleware.BearerToken(AuthHeaders(headers, true, None)["authorization"]) == None
  {
    Middleware.BearerTokenIff("Bearer " + token, token);
    Middleware.BearerTokenIff("", "");
  }

  // ----- link selection -----

  datatype OperationType = QueryOp | MutationOp | SubscriptionOp

  /** The main definition of a GraphQL document. */
  datatype Definition = OperationDefinition(operation: OperationType) | FragmentDefinition

  datatype Link = WebSocket | Http

  /**
   * splitLink: in a browser, subscriptions go over the WebSocket and every
   * other operation over HTTP with the auth header; with no window there is
   * no WebSocket link and everything goes over HTTP.
   */
  function Route(hasWindow: bool, main: Definition): (l: Link)
    ensures l == WebSocket <==> hasWindow && main.OperationDefinition? && main.operation == SubscriptionOp
  {
    if hasWindow && main.OperationDefinition? && main.operation == SubscriptionOp then WebSocket else Http
  }
}
