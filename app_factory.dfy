/** The values the application factory computes and hands to Jinja and
    Flask-Talisman (eq_cir_management_ui/__init__.py): the sanitised design
    system version, the `env_override` template filter, the content security
    policy and the other secure-header settings. */
module AppFactory {
  import opened Strings
  import Config

  // ---------------------------------------------------------------------------
  // Design system version

  /** A character `s.isnumeric() or s == "."` keeps. */
  predicate VersionChar(c: char) {
    IsDigit(c) || c == '.'
  }

  /** Keeps the ASCII digits and dots of `version`, in order, and drops every other character. */
  function SanitiseVersion(version: string): (r: string)
    ensures |r| <= |version|
    ensures forall i :: 0 <= i < |r| ==> VersionChar(r[i])
  {
    if version == [] then []
    else (if VersionChar(version[0]) then [version[0]] else []) + SanitiseVersion(version[1..])
  }

  /** Filtering a concatenation filters each part in turn: kept characters
      stay in their original order. */
  lemma {:induction false} SanitiseAppend(a: string, b: string)
    ensures SanitiseVersion(a + b) == SanitiseVersion(a) + SanitiseVersion(b)
  {
    if a == [] {
      assert a + b == b;
    } else {
      assert (a + b)[0] == a[0] && (a + b)[1..] == a[1..] + b;
      SanitiseAppend(a[1..], b);
    }
  }

  /** Every digit and dot is kept as often as it occurs; nothing else is kept. */
  lemma {:induction false} SanitiseCounts(version: string, c: char)
    ensures multiset(SanitiseVersion(version))[c] == if VersionChar(c) then multiset(version)[c] else 0
  {
    if version != [] {
      SanitiseCounts(version[1..], c);
      assert version == [version[0]] + version[1..];
    }
  }

  /** A string is left unchanged exactly when it is already clean. */
  lemma {:induction false} SanitiseFixedPoint(version: string)
    ensures SanitiseVersion(version) == version <==> forall i :: 0 <= i < |version| ==> VersionChar(version[i])
  {
    if version != [] {
      SanitiseFixedPoint(version[1..]);
      if !VersionChar(version[0]) {
        assert |SanitiseVersion(version)| < |version|;
      } else if SanitiseVersion(version) == version {
        assert SanitiseVersion(version[1..]) == version[1..];
      }
    }
  }

  /** Sanitising twice is sanitising once. */
  lemma SanitiseIdempotent(version: string)
    ensures SanitiseVersion(SanitiseVersion(version)) == SanitiseVersion(version)
  {
    SanitiseFixedPoint(SanitiseVersion(version));
  }

  /** A clean version is unchanged. */
  lemma SanitiseKeepsRelease()
    ensures SanitiseVersion("1.2.3") == "1.2.3"
  {
    var version := "1.2.3";
    assert forall i :: 0 <= i < |version| ==> VersionChar(version[i]);
    SanitiseFixedPoint(version);
  }

  /** An npm range prefix is dropped. */
  lemma SanitiseDropsRange()
    ensures SanitiseVersion("^72.10.4") == "72.10.4"
  {
    var version := "72.10.4";
    assert forall i :: 0 <= i < |version| ==> VersionChar(version[i]);
    SanitiseFixedPoint(version);
    assert "^72.10.4" == "^" + version;
    SanitiseAppend("^", version);
  }

  // ---------------------------------------------------------------------------
  // The env_override filter

  /** `env_override(value, key)`: `os.getenv(key, value)`. */
  function EnvOverride(env: Config.Environ, value: string, key: string): (r: string)
    ensures key in env ==> r == env[key]
    ensures key !in env ==> r == value
  {
    Config.EnvGet(env, key, value)
  }

  /** The environment after `design_system_config` has stored the version
      read from package.json. */
  function WithDesignSystemVersion(env: Config.Environ, packageVersion: string): (r: Config.Environ)
    ensures r.Keys == env.Keys + {"DESIGN_SYSTEM_VERSION"}
    ensures forall i :: 0 <= i < |r["DESIGN_SYSTEM_VERSION"]| ==> VersionChar(r["DESIGN_SYSTEM_VERSION"][i])
    ensures forall k :: k in env && k != "DESIGN_SYSTEM_VERSION" ==> r[k] == env[k]
  {
    env["DESIGN_SYSTEM_VERSION" := SanitiseVersion(packageVersion)]
  }

  /** Templates that ask for DESIGN_SYSTEM_VERSION through the filter get the
      sanitised version whatever fallback they give; any other key reads as
      before, falling back to the given value when unset. */
  lemma FilterSeesVersion(env: Config.Environ, packageVersion: string, value: string, key: string)
    ensures EnvOverride(WithDesignSystemVersion(env, packageVersion), value, "DESIGN_SYSTEM_VERSION")
         == SanitiseVersion(packageVersion)
    ensures key != "DESIGN_SYSTEM_VERSION" ==>
      EnvOverride(WithDesignSystemVersion(env, packageVersion), value, key) == EnvOverride(env, value, key)
    ensures key !in env ==> EnvOverride(env, value, key) == value
    ensures key in env ==> EnvOverride(env, value, key) == env[key]
  {
  }

  // ---------------------------------------------------------------------------
  // Content security policy

  /** One CSP directive with its source list, in the dict's order. */
  datatype Directive = Directive(name: string, sources: seq<string>)

  const SELF: string := "'self'"
  const NONE: string := "'none'"
  const DATA: string := "data:"
  const TAG_MANAGER: string := "https://*.googletagmanager.com"
  const ANALYTICS: string := "https://*.google-analytics.com"

  function ContentSecurityPolicy(cdnUrl: string): (csp: seq<Directive>)
    ensures |csp| == 10
    ensures forall i, j :: 0 <= i < j < |csp| ==> csp[i].name != csp[j].name
  {
    [ Directive("default-src", [SELF, cdnUrl]),
      Directive("font-src", [SELF, cdnUrl]),
      Directive("script-src", [SELF, cdnUrl, TAG_MANAGER, ANALYTICS]),
      Directive("style-src", [SELF, cdnUrl]),
      Directive("connect-src", [SELF, TAG_MANAGER, ANALYTICS]),
      Directive("frame-src", []),
      Directive("img-src", [SELF, DATA]),
      Directive("object-src", [NONE]),
      Directive("base-uri", [NONE]),
      Directive("manifest-src", [SELF]) ]
  }

  /** The CDN serves exactly the default, font, script and style sources,
      as long as its url differs from the policy's other sources. */
  lemma CdnOnlyInContentDirectives(cdnUrl: string, i: nat)
    requires cdnUrl !in {SELF, NONE, DATA, TAG_MANAGER, ANALYTICS}
    requires i < 10
    ensures var d := ContentSecurityPolicy(cdnUrl)[i];
      cdnUrl in d.sources <==> d.name in {"default-src", "font-src", "script-src", "style-src"}
  {
  }

  /** The analytics hosts are allowed for scripts and connections only, as
      long as the CDN is not one of them. */
  lemma AnalyticsOnlyInScriptAndConnect(cdnUrl: string, i: nat)
    requires cdnUrl != TAG_MANAGER && cdnUrl != ANALYTICS
    requires i < 10
    ensures var d := ContentSecurityPolicy(cdnUrl)[i];
      && (TAG_MANAGER in d.sources <==> d.name in {"script-src", "connect-src"})
      && (ANALYTICS in d.sources <==> d.name in {"script-src", "connect-src"})
  {
  }

  /** Plugins and base urls are blocked, frames have no allowed source, and
      every other directive allows the page's own origin first. */
  lemma LockedDirectives(cdnUrl: string, i: nat)
    requires i < 10
    ensures var d := ContentSecurityPolicy(cdnUrl)[i];
      && (d.name in {"object-src", "base-uri"} ==> d.sources == [NONE])
      && (d.name == "frame-src" ==> d.sources == [])
      && (d.name !in {"object-src", "base-uri", "frame-src"} ==> d.sources != [] && d.sources[0] == SELF)
  {
  }

  // ---------------------------------------------------------------------------
  // Flask-Talisman settings

  datatype TalismanSettings = TalismanSettings(
    forceHttps: bool,
    contentSecurityPolicy: seq<Directive>,
    frameOptions: string,
    strictTransportSecurity: bool,
    strictTransportSecurityMaxAge: int,
    sessionCookieSecure: bool)

  const SECONDS_PER_DAY: int := 86400

  /** The arguments `configure_secure_headers` passes to `talisman.init_app`:
      HSTS for one year, framing denied, HTTPS left to the infrastructure,
      and the cookie flag and the policy's CDN taken from the configuration. */
  function SecureHeaders(settings: Config.Settings): (h: TalismanSettings)
    ensures h.strictTransportSecurity && h.strictTransportSecurityMaxAge == 365 * SECONDS_PER_DAY
    ensures h.frameOptions == "DENY" && !h.forceHttps
    ensures h.sessionCookieSecure == settings.sessionCookieSecure
    ensures h.contentSecurityPolicy == ContentSecurityPolicy(settings.cdnUrl)
  {
    TalismanSettings(
      false,
      ContentSecurityPolicy(settings.cdnUrl),
      "DENY",
      true,
      31536000,
      settings.sessionCookieSecure)
  }

  /** Whatever the environment selects, HSTS is on for a year, framing is
      denied, HTTPS is left to the infrastructure, the session cookie is not
      marked secure, and the policy names the configured CDN. */
  lemma HeadersForEveryEnvironment(env: Config.Environ)
    ensures var h := SecureHeaders(Config.GetConfig(env).settings);
      && h.strictTransportSecurity
      && h.strictTransportSecurityMaxAge == 365 * SECONDS_PER_DAY
      && h.frameOptions == "DENY"
      && !h.forceHttps
      && !h.sessionCookieSecure
      && h.contentSecurityPolicy == ContentSecurityPolicy(Config.EnvGet(env, "CDN_URL", Config.DEFAULT_CDN_URL))
  {
    Config.VariantSettings(env);
  }
}
