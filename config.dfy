/** The configuration classes and their selection by runtime environment
    (eq_cir_management_ui/config/config.py). The process environment is a
    parameter: the source reads it when the module is imported. */
module Config {
  import opened Strings

  /** The process environment, `os.environ`. */
  type Environ = map<string, string>

  /** `os.environ.get(key, default)`, which is also `os.getenv(key, default)`:
      a variable that is set, even to "", wins over the default. */
  function EnvGet(env: Environ, key: string, default: string): string {
    if key in env then env[key] else default
  }

  /** The class attributes Flask copies into `app.config`. */
  datatype Settings = Settings(logFormat: string, logLevel: string, cdnUrl: string, sessionCookieSecure: bool)

  /** Which class `get_config` instantiates, with the attribute values it has. */
  datatype AppConfig =
    | DefaultConfig(settings: Settings)
    | DeployedConfig(settings: Settings)
    | ProdConfig(settings: Settings)

  const DEFAULT_CDN_URL: string := "https://cdn.ons.gov.uk"

  /** A variable that is set, even to "", gives its value; an unset one
      gives the class default. The session cookie is never marked secure. */
  function DefaultSettings(env: Environ): (s: Settings)
    ensures s.logFormat == if "LOG_FORMAT" in env then env["LOG_FORMAT"] else "JSON"
    ensures s.logLevel == if "LOG_LEVEL" in env then env["LOG_LEVEL"] else "INFO"
    ensures s.cdnUrl == if "CDN_URL" in env then env["CDN_URL"] else DEFAULT_CDN_URL
    ensures !s.sessionCookieSecure
  {
    Settings(
      EnvGet(env, "LOG_FORMAT", "JSON"),
      EnvGet(env, "LOG_LEVEL", "INFO"),
      EnvGet(env, "CDN_URL", DEFAULT_CDN_URL),
      false)
  }

  /** DeployedConfig overrides only LOG_FORMAT. */
  function DeployedSettings(env: Environ): (s: Settings)
    ensures s.logFormat == "JSON"
    ensures s.(logFormat := DefaultSettings(env).logFormat) == DefaultSettings(env)
  {
    DefaultSettings(env).(logFormat := "JSON")
  }

  /** ProdConfig adds nothing to DeployedConfig, so it too differs from the
      default only in LOG_FORMAT. */
  function ProdSettings(env: Environ): (s: Settings)
    ensures s.logFormat == "JSON"
    ensures s.(logFormat := DefaultSettings(env).logFormat) == DefaultSettings(env)
  {
    DeployedSettings(env)
  }

  /** The lower-cased RUNTIME_ENVIRONMENT, "" when unset. */
  function RuntimeEnvironment(env: Environ): (r: string)
    ensures "RUNTIME_ENVIRONMENT" !in env ==> r == ""
    ensures "RUNTIME_ENVIRONMENT" in env ==> |r| == |env["RUNTIME_ENVIRONMENT"]|
    ensures forall i :: 0 <= i < |r| ==> !('A' <= r[i] <= 'Z')
  {
    AsciiLower(EnvGet(env, "RUNTIME_ENVIRONMENT", ""))
  }

  function GetConfig(env: Environ): (c: AppConfig)
    ensures c.DeployedConfig? <==> RuntimeEnvironment(env) == "dev" || RuntimeEnvironment(env) == "staging"
    ensures c.ProdConfig? <==> RuntimeEnvironment(env) == "prod"
    ensures c.DefaultConfig? <==> RuntimeEnvironment(env) !in {"dev", "staging", "prod"}
  {
    match RuntimeEnvironment(env)
    case "dev" => DeployedConfig(DeployedSettings(env))
    case "staging" => DeployedConfig(DeployedSettings(env))
    case "prod" => ProdConfig(ProdSettings(env))
    case _ => DefaultConfig(DefaultSettings(env))
  }

  /** Selection ignores letter case: two values that lower-case alike select
      the same class with the same attributes. */
  lemma SelectionIgnoresCase(env: Environ, a: string, b: string)
    requires AsciiLower(a) == AsciiLower(b)
    ensures GetConfig(env["RUNTIME_ENVIRONMENT" := a]) == GetConfig(env["RUNTIME_ENVIRONMENT" := b])
  {
    var ea, eb := env["RUNTIME_ENVIRONMENT" := a], env["RUNTIME_ENVIRONMENT" := b];
    assert RuntimeEnvironment(ea) == RuntimeEnvironment(eb);
    assert DefaultSettings(ea) == DefaultSettings(eb);
  }

  lemma RuntimeEnvironmentSet(env: Environ, value: string)
    ensures RuntimeEnvironment(env["RUNTIME_ENVIRONMENT" := value]) == AsciiLower(value)
  {
  }

  /** "dev" and "staging" select DeployedConfig. */
  lemma DevAndStagingSelectDeployed(env: Environ)
    ensures GetConfig(env["RUNTIME_ENVIRONMENT" := "dev"]).DeployedConfig?
    ensures GetConfig(env["RUNTIME_ENVIRONMENT" := "staging"]).DeployedConfig?
  {
    RuntimeEnvironmentSet(env, "dev");
    RuntimeEnvironmentSet(env, "staging");
    AsciiLowerUnchanged("dev");
    AsciiLowerUnchanged("staging");
  }

  /** "prod", in any letter case, selects ProdConfig. */
  lemma ProdSelectsProd(env: Environ)
    ensures GetConfig(env["RUNTIME_ENVIRONMENT" := "prod"]).ProdConfig?
    ensures GetConfig(env["RUNTIME_ENVIRONMENT" := "PROD"]).ProdConfig?
  {
    RuntimeEnvironmentSet(env, "prod");
    RuntimeEnvironmentSet(env, "PROD");
    AsciiLowerUnchanged("prod");
    var upper := AsciiLower("PROD");
    assert upper[0] == 'p' && upper[1] == 'r' && upper[2] == 'o' && upper[3] == 'd';
    assert upper == "prod";
  }

  /** An unknown value, and an unset variable, select DefaultConfig. */
  lemma OthersSelectDefault(env: Environ)
    ensures GetConfig(env["RUNTIME_ENVIRONMENT" := "unknown"]).DefaultConfig?
    ensures "RUNTIME_ENVIRONMENT" !in env ==> GetConfig(env).DefaultConfig?
  {
    RuntimeEnvironmentSet(env, "unknown");
    AsciiLowerUnchanged("unknown");
    AsciiLowerUnchanged("");
  }

  /** Every variant has the default's LOG_LEVEL, CDN_URL and an insecure
      session cookie; LOG_FORMAT follows the environment only in the
      default variant and is "JSON" otherwise. */
  lemma VariantSettings(env: Environ)
    ensures GetConfig(env).settings.logLevel == EnvGet(env, "LOG_LEVEL", "INFO")
    ensures GetConfig(env).settings.cdnUrl == EnvGet(env, "CDN_URL", DEFAULT_CDN_URL)
    ensures !GetConfig(env).settings.sessionCookieSecure
    ensures GetConfig(env).settings.logFormat
         == if GetConfig(env).DefaultConfig? then EnvGet(env, "LOG_FORMAT", "JSON") else "JSON"
    ensures GetConfig(env).ProdConfig? ==> GetConfig(env).settings == DeployedSettings(env)
  {
  }

  /** The deployed variants ignore the LOG_FORMAT variable altogether. */
  lemma DeployedIgnoresLogFormat(env: Environ, format: string)
    ensures DeployedSettings(env["LOG_FORMAT" := format]) == DeployedSettings(env)
    ensures ProdSettings(env["LOG_FORMAT" := format]) == ProdSettings(env)
  {
    var e := env["LOG_FORMAT" := format];
    assert EnvGet(e, "LOG_LEVEL", "INFO") == EnvGet(env, "LOG_LEVEL", "INFO");
    assert EnvGet(e, "CDN_URL", DEFAULT_CDN_URL) == EnvGet(env, "CDN_URL", DEFAULT_CDN_URL);
  }

  /** With none of the variables set, all three variants have the same
      attributes: JSON logs at INFO from the ONS CDN. */
  lemma UnsetEnvironmentDefaults(env: Environ)
    requires "LOG_FORMAT" !in env && "LOG_LEVEL" !in env && "CDN_URL" !in env
    ensures DefaultSettings(env) == Settings("JSON", "INFO", "https://cdn.ons.gov.uk", false)
    ensures DeployedSettings(env) == DefaultSettings(env) && ProdSettings(env) == DefaultSettings(env)
  {
  }
}
