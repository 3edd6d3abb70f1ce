/** `load_server_config` and `validate_config` of backend/config/server_config.ts.
    Environment variables arrive already looked up; a numeric variable carries the
    number `parseInt` reads from it, `None` when it is unset or empty. */
module ServerConfiguration {
  import opened Wrappers
  import opened Strings
  import opened Decimal

  datatype ServerConfig = ServerConfig(
    port: int,
    host: string,
    node_env: string,
    websocket_port: int,
    cors_origins: seq<string>,
    cleanup_interval_minutes: int,
    session_timeout_minutes: int,
    alert_threshold_visitors_per_minute: int)

  /** `PORT`, `HOST`, `NODE_ENV`, `WEBSOCKET_PORT`, `CORS_ORIGINS`,
      `CLEANUP_INTERVAL_MINUTES`, `SESSION_TIMEOUT_MINUTES`, `ALERT_THRESHOLD`. */
  datatype Environment = Environment(
    port: Option<int>,
    host: Option<string>,
    nodeEnv: Option<string>,
    websocketPort: Option<int>,
    corsOrigins: Option<string>,
    cleanupIntervalMinutes: Option<int>,
    sessionTimeoutMinutes: Option<int>,
    alertThreshold: Option<int>)

  const NoVariables: Environment := Environment(None, None, None, None, None, None, None, None)

  const DefaultOrigin: string := "http://localhost:3000"

  /** `process.env.X || fallback`: an empty value falls back as well. */
  function TextOr(v: Option<string>, fallback: string): (r: string)
    ensures r == fallback || (v.Some? && r == v.value && r != "")
  {
    if v.Some? && v.value != "" then v.value else fallback
  }

  /** `CORS_ORIGINS.split(",").map(origin => origin.trim())`, or the default origin. */
  function CorsOrigins(v: Option<string>): (r: seq<string>)
    ensures |r| >= 1
    ensures v.Some? && v.value != "" ==> |r| == Count(v.value, ',') + 1
    ensures v.Some? && v.value != "" ==> forall i :: 0 <= i < |r| ==> Trimmed(r[i]) && ',' !in r[i]
    ensures !(v.Some? && v.value != "") ==> r == [DefaultOrigin]
  {
    if v.Some? && v.value != "" then
      var parts := Split(v.value, ',');
      seq(|parts|, i requires 0 <= i < |parts| => Trim(parts[i]))
    else [DefaultOrigin]
  }

  /** The configuration object of `load_server_config`, before validation. */
  function BuildConfig(env: Environment): (c: ServerConfig)
    ensures c.cors_origins == CorsOrigins(env.corsOrigins)
    ensures env.port.Some? ==> c.port == env.port.value
    ensures env.websocketPort.Some? ==> c.websocket_port == env.websocketPort.value
  {
    ServerConfig(
      env.port.GetOr(3000),
      TextOr(env.host, "0.0.0.0"),
      TextOr(env.nodeEnv, "development"),
      env.websocketPort.GetOr(8080),
      CorsOrigins(env.corsOrigins),
      env.cleanupIntervalMinutes.GetOr(60),
      env.sessionTimeoutMinutes.GetOr(30),
      env.alertThreshold.GetOr(10))
  }

  /** One finding of `validate_config`, in the order the checks run. */
  datatype ConfigError =
    | InvalidPort(port: int)
    | InvalidWebSocketPort(port: int)
    | PortConflict(port: int)
    | SessionTimeoutTooShort(minutes: int)
    | CleanupIntervalTooShort(minutes: int)
    | InvalidNodeEnv(env: string)

  function Message(e: ConfigError): string {
    match e
    case InvalidPort(p) => "Invalid port: " + IntToString(p) + ". Must be between 1 and 65535."
    case InvalidWebSocketPort(p) => "Invalid WebSocket port: " + IntToString(p) + ". Must be between 1 and 65535."
    case PortConflict(p) => "HTTP and WebSocket ports cannot be the same: " + IntToString(p)
    case SessionTimeoutTooShort(m) => "Session timeout must be at least 1 minute, got: " + IntToString(m)
    case CleanupIntervalTooShort(m) => "Cleanup interval must be at least 1 minute, got: " + IntToString(m)
    case InvalidNodeEnv(env) => "Invalid NODE_ENV: " + env + ". Must be 'development', 'production', or 'test'."
  }

  predicate ValidPort(p: int) {
    1 <= p <= 65535
  }

  predicate KnownEnvironment(env: string) {
    env == "development" || env == "production" || env == "test"
  }

  function When(failed: bool, e: ConfigError): seq<ConfigError> {
    if failed then [e] else []
  }

  /** Every check of `validate_config` that fails, in check order. */
  function ConfigErrors(c: ServerConfig): (r: seq<ConfigError>)
    ensures |r| <= 6
  {
    []
    + When(!ValidPort(c.port), InvalidPort(c.port))
    + When(!ValidPort(c.websocket_port), InvalidWebSocketPort(c.websocket_port))
    + When(c.port == c.websocket_port, PortConflict(c.port))
    + When(c.session_timeout_minutes < 1, SessionTimeoutTooShort(c.session_timeout_minutes))
    + When(c.cleanup_interval_minutes < 1, CleanupIntervalTooShort(c.cleanup_interval_minutes))
    + When(!KnownEnvironment(c.node_env), InvalidNodeEnv(c.node_env))
  }

  /** Each check records its finding exactly when its condition fails, and the
      list is empty exactly when every check passes. */
  lemma ConfigErrorsListFailures(c: ServerConfig)
    ensures var r := ConfigErrors(c);
      && (InvalidPort(c.port) in r <==> !ValidPort(c.port))
      && (InvalidWebSocketPort(c.websocket_port) in r <==> !ValidPort(c.websocket_port))
      && (PortConflict(c.port) in r <==> c.port == c.websocket_port)
      && (SessionTimeoutTooShort(c.session_timeout_minutes) in r <==> c.session_timeout_minutes < 1)
      && (CleanupIntervalTooShort(c.cleanup_interval_minutes) in r <==> c.cleanup_interval_minutes < 1)
      && (InvalidNodeEnv(c.node_env) in r <==> !KnownEnvironment(c.node_env))
      && (r == [] <==> ValidPort(c.port) && ValidPort(c.websocket_port) && c.port != c.websocket_port
                       && c.session_timeout_minutes >= 1 && c.cleanup_interval_minutes >= 1
                       && KnownEnvironment(c.node_env))
  {
  }

  function Messages(errors: seq<ConfigError>): (r: seq<string>)
    ensures |r| == |errors|
    ensures forall i :: 0 <= i < |r| ==> r[i] == Message(errors[i])
  {
    seq(|errors|, i requires 0 <= i < |errors| => Message(errors[i]))
  }

  /** The text of the error `validate_config` throws. */
  function Report(errors: seq<ConfigError>): string {
    "Invalid server configuration:\n" + Join(Messages(errors), "\n")
  }

  /** One check of `validate_config`: `if (failed) errors.push(message)`, with the
      finding it reports kept alongside. */
  method Check(errors: seq<string>, ghost found: seq<ConfigError>, failed: bool, e: ConfigError)
    returns (errors': seq<string>, ghost found': seq<ConfigError>)
    requires errors == Messages(found)
    ensures found' == found + When(failed, e)
    ensures errors' == Messages(found')
  {
    errors', found' := errors, found;
    if failed {
      errors' := errors + [Message(e)];
      found' := found + [e];
    }
  }

  /** `validate_config`: runs the checks one after another and throws (here:
      returns the error text) when at least one failed. */
  method ValidateConfig(c: ServerConfig) returns (thrown: Option<string>)
    ensures thrown.None? <==> ConfigErrors(c) == []
    ensures thrown.Some? ==> thrown.value == Report(ConfigErrors(c))
  {
    var errors: seq<string> := [];
    ghost var found: seq<ConfigError> := [];
    errors, found := Check(errors, found, !ValidPort(c.port), InvalidPort(c.port));
    errors, found := Check(errors, found, !ValidPort(c.websocket_port), InvalidWebSocketPort(c.websocket_port));
    errors, found := Check(errors, found, c.port == c.websocket_port, PortConflict(c.port));
    errors, found := Check(errors, found, c.session_timeout_minutes < 1,
                           SessionTimeoutTooShort(c.session_timeout_minutes));
    errors, found := Check(errors, found, c.cleanup_interval_minutes < 1,
                           CleanupIntervalTooShort(c.cleanup_interval_minutes));
    errors, found := Check(errors, found, !KnownEnvironment(c.node_env), InvalidNodeEnv(c.node_env));
    assert found == ConfigErrors(c);
    if |errors| > 0 {
      return Some("Invalid server configuration:\n" + Join(errors, "\n"));
    }
    return None;
  }

  /** `load_server_config`: the configuration, or the error validation throws. */
  method LoadServerConfig(env: Environment) returns (r: Result<ServerConfig, string>)
    ensures r.Success? <==> ConfigErrors(BuildConfig(env)) == []
    ensures r.Success? ==> r.value == BuildConfig(env)
    ensures r.Failure? ==> r.error == Report(ConfigErrors(BuildConfig(env)))
  {
    var config := BuildConfig(env);
    var thrown := ValidateConfig(config);
    if thrown.Some? {
      return Failure(thrown.value);
    }
    return Success(config);
  }

  /** With no variables set the defaults are the documented ones, and they pass. */
  lemma DefaultsAreValid()
    ensures BuildConfig(NoVariables)
         == ServerConfig(3000, "0.0.0.0", "development", 8080, [DefaultOrigin], 60, 30, 10)
    ensures ConfigErrors(BuildConfig(NoVariables)) == []
  {
  }

  /** `host`, `cors_origins` and the alert threshold are never checked. */
  lemma UncheckedFields(c: ServerConfig, host: string, origins: seq<string>, threshold: int)
    ensures ConfigErrors(c.(host := host, cors_origins := origins, alert_threshold_visitors_per_minute := threshold))
         == ConfigErrors(c)
  {
  }

  /** The port checks are independent: an out-of-range HTTP port does not stop the
      WebSocket port from being checked, nor the conflict between them. */
  lemma PortErrorsIndependent(c: ServerConfig)
    requires !ValidPort(c.port) && !ValidPort(c.websocket_port) && c.port == c.websocket_port
    ensures ConfigErrors(c)[..3] == [InvalidPort(c.port), InvalidWebSocketPort(c.port), PortConflict(c.port)]
  {
  }

  /** A set `CORS_ORIGINS` gives one trimmed origin per comma-separated piece, and
      the pieces (before trimming) join back to the variable. */
  lemma CorsOriginsFromVariable(s: string)
    requires s != ""
    ensures var r := CorsOrigins(Some(s));
      && |r| == Count(s, ',') + 1
      && (forall i :: 0 <= i < |r| ==> r[i] == Trim(Split(s, ',')[i]))
      && Join(Split(s, ','), ",") == s
  {
    JoinSplit(s, ',');
  }
}
