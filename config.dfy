/** Application settings (backend/core/config.py): a record of values
    already read from the environment, the values derived from them, the
    two field validators and the production safety checks. */
module Config {
  import opened Wrappers
  import opened Text

  /** The settings the modelled backend reads. Fields that only configure
      libraries outside this model (JWT, SMTP, Sentry, pool sizes, ...) are
      not carried. */
  datatype Settings = Settings(
    appEnv: string,
    debug: bool,
    secretKey: string,
    postgresServer: string,
    postgresPort: int,
    postgresUser: string,
    postgresPassword: string,
    postgresDb: string,
    redisHost: string,
    redisPort: int,
    redisPassword: Option<string>,
    redisDb: int,
    celeryBrokerUrl: Option<string>,
    celeryResultBackend: Option<string>,
    storageBackend: string,
    minioBucket: string,
    s3Bucket: string,
    storagePath: string,
    clamavEnabled: bool,
    corsOrigins: string,
    corsAllowMethods: string,
    maxFileSizeMb: int,
    maxChunkSizeMb: int,
    allowedExtensions: string,
    logLevel: string)

  const DefaultSecretKey: string := "CHANGE_THIS_SECRET_KEY_IN_PRODUCTION"
  const DefaultPostgresPassword: string := "password"
  const MiB: int := 1024 * 1024

  /** The declared field defaults. */
  function Defaults(): Settings
  {
    Settings(
      appEnv := "development",
      debug := false,
      secretKey := DefaultSecretKey,
      postgresServer := "localhost",
      postgresPort := 5432,
      postgresUser := "fileguard",
      postgresPassword := DefaultPostgresPassword,
      postgresDb := "fileguard_db",
      redisHost := "localhost",
      redisPort := 6379,
      redisPassword := None,
      redisDb := 0,
      celeryBrokerUrl := None,
      celeryResultBackend := None,
      storageBackend := "minio",
      minioBucket := "fileguard-files",
      s3Bucket := "fileguard-files",
      storagePath := "/var/lib/fileguard/storage",
      clamavEnabled := true,
      corsOrigins := "http://localhost:3000,http://localhost:8000",
      corsAllowMethods := "GET,POST,PUT,DELETE,OPTIONS,PATCH",
      maxFileSizeMb := 500,
      maxChunkSizeMb := 10,
      allowedExtensions := "*",
      logLevel := "INFO")
  }

  // ------------------------------------------------------------------
  // Connection URLs
  // ------------------------------------------------------------------

  /** `database_url`. */
  function DatabaseUrl(s: Settings): string
  {
    "postgresql://" + s.postgresUser + ":" + s.postgresPassword + "@" + s.postgresServer
      + ":" + IntToString(s.postgresPort) + "/" + s.postgresDb
  }

  /** The URL regrouped around its separators, innermost last. */
  lemma DatabaseUrlShape(s: Settings)
    ensures DatabaseUrl(s) == "postgresql://" + (s.postgresUser + ":" + (s.postgresPassword + "@"
              + (s.postgresServer + ":" + (IntToString(s.postgresPort) + "/" + s.postgresDb))))
  {
    var port := IntToString(s.postgresPort) + "/" + s.postgresDb;
    var host := s.postgresServer + ":" + port;
    var cred := s.postgresPassword + "@" + host;
    assert "postgresql://" + s.postgresUser + ":" + s.postgresPassword + "@" + s.postgresServer + ":" + port
        == "postgresql://" + (s.postgresUser + ":" + cred);
  }

  /** The URL determines every component, as long as the user has no ':',
      the password no '@' and the server no ':' (the points at which a
      reader of the URL cuts it). */
  lemma DatabaseUrlInjective(s: Settings, t: Settings)
    requires ':' !in s.postgresUser && ':' !in t.postgresUser
    requires '@' !in s.postgresPassword && '@' !in t.postgresPassword
    requires ':' !in s.postgresServer && ':' !in t.postgresServer
    requires DatabaseUrl(s) == DatabaseUrl(t)
    ensures s.postgresUser == t.postgresUser && s.postgresPassword == t.postgresPassword
    ensures s.postgresServer == t.postgresServer && s.postgresPort == t.postgresPort
    ensures s.postgresDb == t.postgresDb
  {
    var ps, pt := IntToString(s.postgresPort), IntToString(t.postgresPort);
    IntToStringRoundTrip(s.postgresPort);
    IntToStringRoundTrip(t.postgresPort);
    SignedDecimalChars(ps);
    SignedDecimalChars(pt);
    var portS, portT := ps + "/" + s.postgresDb, pt + "/" + t.postgresDb;
    var hostS, hostT := s.postgresServer + ":" + portS, t.postgresServer + ":" + portT;
    var credS, credT := s.postgresPassword + "@" + hostS, t.postgresPassword + "@" + hostT;
    var tailS, tailT := s.postgresUser + ":" + credS, t.postgresUser + ":" + credT;
    DatabaseUrlShape(s);
    DatabaseUrlShape(t);
    assert tailS == DatabaseUrl(s)[13..] && tailT == DatabaseUrl(t)[13..];
    SplitAtFirst(s.postgresUser, credS, t.postgresUser, credT, ':');
    SplitAtFirst(s.postgresPassword, hostS, t.postgresPassword, hostT, '@');
    SplitAtFirst(s.postgresServer, portS, t.postgresServer, portT, ':');
    SplitAtFirst(ps, s.postgresDb, pt, t.postgresDb, '/');
    IntToStringInjective(s.postgresPort, t.postgresPort);
  }

  /** The password is not escaped, so without the condition above the URL
      is ambiguous: a password holding '@' reads like a longer host. */
  lemma DatabaseUrlAmbiguous(base: Settings)
    ensures var s := base.(postgresUser := "a", postgresPassword := "b@c", postgresServer := "d");
            var t := base.(postgresUser := "a", postgresPassword := "b", postgresServer := "c@d");
            DatabaseUrl(s) == DatabaseUrl(t) && s.postgresPassword != t.postgresPassword
  {
    var s := base.(postgresUser := "a", postgresPassword := "b@c", postgresServer := "d");
    var t := base.(postgresUser := "a", postgresPassword := "b", postgresServer := "c@d");
    DatabaseUrlShape(s);
    DatabaseUrlShape(t);
    var port := IntToString(base.postgresPort) + "/" + base.postgresDb;
    assert "b@c" + "@" + ("d" + ":" + port) == "b@c@d:" + port;
    assert "b" + "@" + ("c@d" + ":" + port) == "b@c@d:" + port;
  }

  /** Python truthiness of an optional string: neither None nor empty. */
  predicate Truthy(o: Option<string>) {
    o.Some? && o.value != ""
  }

  /** The `{host}:{port}/{db}` part of the Redis URL. */
  function RedisAddress(s: Settings): string
  {
    s.redisHost + ":" + IntToString(s.redisPort) + "/" + IntToString(s.redisDb)
  }

  /** `redis_url`: with the password as user-info when one is set. */
  function RedisUrl(s: Settings): string
  {
    if Truthy(s.redisPassword) then "redis://:" + s.redisPassword.value + "@" + RedisAddress(s)
    else "redis://" + RedisAddress(s)
  }

  /** The URL carries credentials exactly when a password is set, as long
      as the host itself has no '@'. */
  lemma RedisUrlCarriesPassword(s: Settings)
    requires '@' !in s.redisHost
    ensures '@' in RedisUrl(s) <==> Truthy(s.redisPassword)
    ensures Truthy(s.redisPassword) ==> (":" + s.redisPassword.value + "@") <= RedisUrl(s)[8..]
  {
    var port, db := IntToString(s.redisPort), IntToString(s.redisDb);
    IntToStringRoundTrip(s.redisPort);
    IntToStringRoundTrip(s.redisDb);
    SignedDecimalChars(port);
    SignedDecimalChars(db);
    var rest := RedisAddress(s);
    assert '@' !in rest by {
      assert '@' !in s.redisHost + ":" + port;
    }
    if Truthy(s.redisPassword) {
      var pre := "redis://:" + s.redisPassword.value;
      assert RedisUrl(s)[|pre|] == '@';
      assert RedisUrl(s)[8..] == ":" + s.redisPassword.value + "@" + rest;
    } else {
      assert '@' !in "redis://";
    }
  }

  /** `get_celery_broker_url`: the configured broker when it is truthy,
      Redis otherwise; never empty. */
  function CeleryBrokerUrl(s: Settings): (url: string)
    ensures url != ""
    ensures Truthy(s.celeryBrokerUrl) ==> url == s.celeryBrokerUrl.value
    ensures !Truthy(s.celeryBrokerUrl) ==> url == RedisUrl(s)
  {
    if Truthy(s.celeryBrokerUrl) then s.celeryBrokerUrl.value else RedisUrl(s)
  }

  /** `get_celery_result_backend`: the configured backend when it is
      truthy, Redis otherwise; never empty. */
  function CeleryResultBackend(s: Settings): (url: string)
    ensures url != ""
    ensures Truthy(s.celeryResultBackend) ==> url == s.celeryResultBackend.value
    ensures !Truthy(s.celeryResultBackend) ==> url == RedisUrl(s)
  {
    if Truthy(s.celeryResultBackend) then s.celeryResultBackend.value else RedisUrl(s)
  }

  // ------------------------------------------------------------------
  // Comma-separated lists
  // ------------------------------------------------------------------

  /** `[x.strip() for x in value.split(",")]`: one item per comma-separated
      piece, in order, each stripped. */
  function CommaList(value: string): (items: seq<string>)
    ensures |items| == |Split(value, ',')| == Count(value, ',') + 1
    ensures forall i :: 0 <= i < |items| ==> Trimmed(items[i]) && ',' !in items[i]
    ensures forall i :: 0 <= i < |items| ==> items[i] == Strip(Split(value, ',')[i])
  {
    SplitLength(value, ',');
    SplitPiecesAvoidSep(value, ',');
    var parts := Split(value, ',');
    seq(|parts|, i requires 0 <= i < |parts| => Strip(parts[i]))
  }

  /** Listing trimmed, comma-free items joined with commas gives the items
      back. */
  lemma CommaListJoin(items: seq<string>)
    requires |items| >= 1
    requires forall i :: 0 <= i < |items| ==> Trimmed(items[i]) && ',' !in items[i]
    ensures CommaList(Join(items, ',')) == items
  {
    JoinSplit(items, ',');
    forall i | 0 <= i < |items|
      ensures Strip(items[i]) == items[i]
    {
      StripTrimmed(items[i]);
    }
  }

  /** `cors_origins_list`. */
  function CorsOriginsList(s: Settings): (origins: seq<string>)
    ensures |origins| == Count(s.corsOrigins, ',') + 1
    ensures forall i :: 0 <= i < |origins| ==> Trimmed(origins[i])
  {
    CommaList(s.corsOrigins)
  }

  /** `cors_methods_list`. */
  function CorsMethodsList(s: Settings): (methods: seq<string>)
    ensures |methods| == Count(s.corsAllowMethods, ',') + 1
    ensures forall i :: 0 <= i < |methods| ==> Trimmed(methods[i])
  {
    CommaList(s.corsAllowMethods)
  }

  /** `allowed_extensions_list`: empty, meaning every extension is allowed,
      exactly when the setting is the single character "*"; otherwise each
      comma-separated piece stripped and lower-cased. */
  function AllowedExtensionsList(s: Settings): (exts: seq<string>)
    ensures exts == [] <==> s.allowedExtensions == "*"
    ensures s.allowedExtensions != "*" ==>
              && |exts| == Count(s.allowedExtensions, ',') + 1
              && forall i :: 0 <= i < |exts| ==>
                   exts[i] == Lower(CommaList(s.allowedExtensions)[i]) && Trimmed(exts[i])
  {
    if s.allowedExtensions == "*" then []
    else
      var items := CommaList(s.allowedExtensions);
      assert forall i :: 0 <= i < |items| ==> Trimmed(Lower(items[i])) by {
        forall i | 0 <= i < |items| ensures Trimmed(Lower(items[i])) {
          LowerTrimmed(items[i]);
        }
      }
      seq(|items|, i requires 0 <= i < |items| => Lower(items[i]))
  }

  /** Every extension in the list is lower-case: listing again what the
      list holds gives the list back. */
  lemma AllowedExtensionsStable(s: Settings)
    requires s.allowedExtensions != "*"
    ensures var exts := AllowedExtensionsList(s);
            exts != [] && forall i :: 0 <= i < |exts| ==> Lower(exts[i]) == exts[i]
  {
    var exts := AllowedExtensionsList(s);
    forall i | 0 <= i < |exts| ensures Lower(exts[i]) == exts[i] {
      LowerIdempotent(CommaList(s.allowedExtensions)[i]);
    }
  }

  // ------------------------------------------------------------------
  // Sizes
  // ------------------------------------------------------------------

  /** `max_file_size_bytes`: whole mebibytes, converting back exactly. */
  function MaxFileSizeBytes(s: Settings): (bytes: int)
    ensures bytes % MiB == 0 && bytes / MiB == s.maxFileSizeMb
  {
    s.maxFileSizeMb * 1024 * 1024
  }

  /** `max_chunk_size_bytes`: whole mebibytes, converting back exactly. */
  function MaxChunkSizeBytes(s: Settings): (bytes: int)
    ensures bytes % MiB == 0 && bytes / MiB == s.maxChunkSizeMb
  {
    s.maxChunkSizeMb * 1024 * 1024
  }

  // ------------------------------------------------------------------
  // Validators
  // ------------------------------------------------------------------

  const Environments: seq<string> := ["development", "staging", "production"]
  const LogLevels: seq<string> := ["DEBUG", "INFO", "WARNING", "ERROR", "CRITICAL"]

  /** The messages of the ValueErrors the validators and post-init raise. */
  const EnvironmentError: string := "app_env must be one of ['development', 'staging', 'production']"
  const LogLevelError: string := "log_level must be one of ['DEBUG', 'INFO', 'WARNING', 'ERROR', 'CRITICAL']"
  const SecretKeyError: string :=
    "SECRET_KEY must be changed in production! Generate a secure key with: openssl rand -hex 32"
  const DebugError: string := "DEBUG must be False in production"
  const PasswordError: string := "Default database password detected in production!"

  /** `validate_environment`: accepts any casing of an allowed environment
      and normalises it to lower case. */
  function ValidateEnvironment(v: string): (r: Result<string, string>)
    ensures r.Success? <==> Lower(v) in Environments
    ensures r.Success? ==> r.value == Lower(v) && r.value in Environments
    ensures r.Failure? ==> r.error == EnvironmentError
  {
    if Lower(v) !in Environments then Failure(EnvironmentError)
    else Success(Lower(v))
  }

  /** Validating an accepted value again accepts it unchanged. */
  lemma ValidateEnvironmentIdempotent(v: string)
    requires ValidateEnvironment(v).Success?
    ensures ValidateEnvironment(ValidateEnvironment(v).value) == ValidateEnvironment(v)
  {
    LowerIdempotent(v);
  }

  /** `validate_log_level`: accepts any casing of an allowed level and
      normalises it to upper case. */
  function ValidateLogLevel(v: string): (r: Result<string, string>)
    ensures r.Success? <==> Upper(v) in LogLevels
    ensures r.Success? ==> r.value == Upper(v) && r.value in LogLevels
    ensures r.Failure? ==> r.error == LogLevelError
  {
    if Upper(v) !in LogLevels then Failure(LogLevelError)
    else Success(Upper(v))
  }

  lemma ValidateLogLevelIdempotent(v: string)
    requires ValidateLogLevel(v).Success?
    ensures ValidateLogLevel(ValidateLogLevel(v).value) == ValidateLogLevel(v)
  {
    UpperIdempotent(v);
  }

  /** The environment check is case-insensitive: two spellings that differ
      only in case are both accepted or both refused, to the same value. */
  lemma ValidateEnvironmentIgnoresCase(v: string, w: string)
    requires Lower(v) == Lower(w)
    ensures ValidateEnvironment(v) == ValidateEnvironment(w)
  {
  }

  // ------------------------------------------------------------------
  // Environment and production checks
  // ------------------------------------------------------------------

  predicate IsDevelopment(s: Settings) {
    s.appEnv == "development"
  }

  predicate IsProduction(s: Settings) {
    s.appEnv == "production"
  }

  /** The three production requirements. */
  predicate ProductionSafe(s: Settings) {
    s.secretKey != DefaultSecretKey && !s.debug && s.postgresPassword != DefaultPostgresPassword
  }

  /** `model_post_init`: in production, the default secret key, debug mode
      and the default database password are refused, checked in that
      order; any other environment passes. */
  function ModelPostInit(s: Settings): (o: Outcome<string>)
    ensures o == Pass <==> !IsProduction(s) || ProductionSafe(s)
    ensures IsProduction(s) && s.secretKey == DefaultSecretKey ==>
              o == Fail(SecretKeyError)
    ensures IsProduction(s) && s.secretKey != DefaultSecretKey && s.debug ==>
              o == Fail(DebugError)
    ensures IsProduction(s) && s.secretKey != DefaultSecretKey && !s.debug && s.postgresPassword == DefaultPostgresPassword ==>
              o == Fail(PasswordError)
  {
    if !IsProduction(s) then Pass
    else if s.secretKey == DefaultSecretKey then
      Fail(SecretKeyError)
    else if s.debug then Fail(DebugError)
    else if s.postgresPassword == DefaultPostgresPassword then
      Fail(PasswordError)
    else Pass
  }

  /** Settings as they stand once loaded. */
  predicate Loaded(s: Settings) {
    s.appEnv in Environments && s.logLevel in LogLevels && (IsProduction(s) ==> ProductionSafe(s))
  }

  /** Building `Settings()`: both field validators run and their errors are
      reported together; only when both pass are the normalised values
      stored and `model_post_init` consulted. */
  function Load(raw: Settings): (r: Result<Settings, seq<string>>)
    ensures r.Success? ==> Loaded(r.value)
    ensures r.Success? ==> r.value == raw.(appEnv := Lower(raw.appEnv), logLevel := Upper(raw.logLevel))
    ensures r.Success? <==> ValidateEnvironment(raw.appEnv).Success? && ValidateLogLevel(raw.logLevel).Success?
                            && (Lower(raw.appEnv) == "production" ==> ProductionSafe(raw))
  {
    var env, level := ValidateEnvironment(raw.appEnv), ValidateLogLevel(raw.logLevel);
    if env.Failure? || level.Failure? then
      Failure((if env.Failure? then [env.error] else []) + (if level.Failure? then [level.error] else []))
    else
      var s := raw.(appEnv := env.value, logLevel := level.value);
      match ModelPostInit(s)
      case Pass => Success(s)
      case Fail(msg) => Failure([msg])
  }

  /** Loading settings that were already loaded changes nothing. */
  lemma LoadIdempotent(raw: Settings)
    requires Load(raw).Success?
    ensures Load(Load(raw).value) == Load(raw)
  {
    var s := Load(raw).value;
    LowerIdempotent(raw.appEnv);
    UpperIdempotent(raw.logLevel);
    assert s.(appEnv := Lower(s.appEnv), logLevel := Upper(s.logLevel)) == s;
  }

  /** A production deployment left on the default secret key never loads,
      whatever else it sets. */
  lemma ProductionNeedsSecret(raw: Settings)
    requires Lower(raw.appEnv) == "production" && raw.secretKey == DefaultSecretKey
    ensures Load(raw).Failure?
  {
  }

  /** The defaults load unchanged, as a development configuration. */
  lemma DefaultsLoad()
    ensures Load(Defaults()) == Success(Defaults())
    ensures IsDevelopment(Defaults())
  {
    assert Lower("development") == "development";
    assert Upper("INFO") == "INFO";
  }
}
