/**
 * Configuration loading of backend/config/config.go. The process
 * environment is a map (a missing key reads as ""), durations are in
 * nanoseconds, and Go's time.ParseDuration is a parameter: it yields the
 * duration or None for text it cannot read.
 */
module Config {
  import opened Wrappers

  type Env = map<string, string>

  const Nanosecond: int := 1
  const Second: int := 1000000000 * Nanosecond
  const Minute: int := 60 * Second
  const Hour: int := 60 * Minute

  datatype Config = Config(
    port: string,
    environment: string,
    mongoUri: string,
    mongoDatabase: string,
    jwtSecret: string,
    jwtAccessExpiry: int,
    jwtRefreshExpiry: int,
    githubClientId: string,
    githubClientSecret: string,
    githubRedirectUrl: string,
    cloudinaryCloudName: string,
    cloudinaryApiKey: string,
    cloudinaryApiSecret: string,
    frontendUrl: string,
    redisUrl: string,
    rateLimitRequests: int,
    rateLimitDuration: int)

  /** `os.Getenv`: an unset variable reads as the empty string. */
  function Getenv(env: Env, key: string): string
  {
    if key in env then env[key] else ""
  }

  /** getEnv: the variable's value when it is non-empty, the default otherwise. */
  function GetEnv(env: Env, key: string, default: string): (r: string)
    ensures Getenv(env, key) != "" ==> r == Getenv(env, key)
    ensures Getenv(env, key) == "" ==> r == default
  {
    var value := Getenv(env, key);
    if value != "" then value else default
  }

  /** A variable set to the empty string is read exactly as an unset one. */
  lemma EmptyCountsAsUnset(env: Env, key: string, default: string)
    ensures GetEnv(env[key := ""], key, default) == GetEnv(env - {key}, key, default) == default
  {
  }

  /** A non-empty default makes getEnv's result non-empty, whatever the environment. */
  lemma GetEnvNonEmpty(env: Env, key: string, default: string)
    requires default != ""
    ensures GetEnv(env, key, default) != ""
  {
  }

  /** The duration parseDuration falls back to. */
  const DefaultDuration: int := 15 * Minute

  /** parseDuration: the parsed duration, or 15 minutes on any parse error. */
  function ParseDuration(s: string, parse: string -> Option<int>): (d: int)
    ensures parse(s).Some? ==> d == parse(s).value
    ensures parse(s).None? ==> d == 15 * Minute
  {
    match parse(s)
    case Some(d) => d
    case None => DefaultDuration
  }

  /** Load: one record built from the environment, with fixed rate limits. */
  function Load(env: Env, parse: string -> Option<int>): (c: Config)
    ensures c.port == GetEnv(env, "PORT", "8080")
    ensures c.environment == GetEnv(env, "ENV", "development")
    ensures c.jwtAccessExpiry == ParseDuration(GetEnv(env, "JWT_ACCESS_EXPIRY", "15m"), parse)
    ensures c.jwtRefreshExpiry == ParseDuration(GetEnv(env, "JWT_REFRESH_EXPIRY", "168h"), parse)
    ensures c.mongoUri == GetEnv(env, "MONGODB_URI", "mongodb://localhost:27017/devthreads")
    ensures c.mongoDatabase == GetEnv(env, "MONGODB_DATABASE", "devthreads")
    ensures c.jwtSecret == GetEnv(env, "JWT_SECRET", "your-super-secret-jwt-key")
    ensures c.githubClientId == GetEnv(env, "GITHUB_CLIENT_ID", "")
    ensures c.githubClientSecret == GetEnv(env, "GITHUB_CLIENT_SECRET", "")
    ensures c.githubRedirectUrl == GetEnv(env, "GITHUB_REDIRECT_URL", "http://localhost:8080/auth/github/callback")
    ensures c.cloudinaryCloudName == GetEnv(env, "CLOUDINARY_CLOUD_NAME", "")
    ensures c.cloudinaryApiKey == GetEnv(env, "CLOUDINARY_API_KEY", "")
    ensures c.cloudinaryApiSecret == GetEnv(env, "CLOUDINARY_API_SECRET", "")
    ensures c.frontendUrl == GetEnv(env, "FRONTEND_URL", "http://localhost:3000")
    ensures c.redisUrl == GetEnv(env, "REDIS_URL", "")
    ensures c.rateLimitRequests == 100 && c.rateLimitDuration == Minute
  {
    Config(
      port := GetEnv(env, "PORT", "8080"),
      environment := GetEnv(env, "ENV", "development"),
      mongoUri := GetEnv(env, "MONGODB_URI", "mongodb://localhost:27017/devthreads"),
      mongoDatabase := GetEnv(env, "MONGODB_DATABASE", "devthreads"),
      jwtSecret := GetEnv(env, "JWT_SECRET", "your-super-secret-jwt-key"),
      jwtAccessExpiry := ParseDuration(GetEnv(env, "JWT_ACCESS_EXPIRY", "15m"), parse),
      jwtRefreshExpiry := ParseDuration(GetEnv(env, "JWT_REFRESH_EXPIRY", "168h"), parse),
      githubClientId := GetEnv(env, "GITHUB_CLIENT_ID", ""),
      githubClientSecret := GetEnv(env, "GITHUB_CLIENT_SECRET", ""),
      githubRedirectUrl := GetEnv(env, "GITHUB_REDIRECT_URL", "http://localhost:8080/auth/github/callback"),
      cloudinaryCloudName := GetEnv(env, "CLOUDINARY_CLOUD_NAME", ""),
      cloudinaryApiKey := GetEnv(env, "CLOUDINARY_API_KEY", ""),
      cloudinaryApiSecret := GetEnv(env, "CLOUDINARY_API_SECRET", ""),
      frontendUrl := GetEnv(env, "FRONTEND_URL", "http://localhost:3000"),
      redisUrl := GetEnv(env, "REDIS_URL", ""),
      rateLimitRequests := 100,
      rateLimitDuration := Minute)
  }

  /**
   * With nothing set, the server listens on 8080 in development mode, and
   * the tokens last 15 minutes and 168 hours when the duration parser reads
   * the defaults as Go does.
   */
  lemma LoadDefaults(parse: string -> Option<int>)
    requires parse("15m") == Some(15 * Minute)
    requires parse("168h") == Some(168 * Hour)
    ensures var c := Load(map[], parse);
      c.port == "8080" && c.environment == "development" &&
      c.mongoUri == "mongodb://localhost:27017/devthreads" && c.mongoDatabase == "devthreads" &&
      c.jwtSecret == "your-super-secret-jwt-key" &&
      c.githubClientId == "" && c.githubClientSecret == "" &&
      c.githubRedirectUrl == "http://localhost:8080/auth/github/callback" &&
      c.cloudinaryCloudName == "" && c.cloudinaryApiKey == "" && c.cloudinaryApiSecret == "" &&
      c.frontendUrl == "http://localhost:3000" && c.redisUrl == "" &&
      c.jwtAccessExpiry == 15 * Minute && c.jwtRefreshExpiry == 168 * Hour
  {
  }

  /** Unreadable expiry settings both fall back to 15 minutes. */
  lemma LoadBadDurations(env: Env, parse: string -> Option<int>)
    requires parse(GetEnv(env, "JWT_ACCESS_EXPIRY", "15m")).None?
    requires parse(GetEnv(env, "JWT_REFRESH_EXPIRY", "168h")).None?
    ensures Load(env, parse).jwtAccessExpiry == Load(env, parse).jwtRefreshExpiry == 15 * Minute
  {
  }
}
