/**
 The manager's configuration and the cookies it deals in: the defaults merged
 with the caller's settings, the cookie settings handed to the session runtime,
 and the cookie that invalidates the session on destruction.
 */
module SessionConfig {
  import opened SessionData

  /** Setting name to setting value, as the PHP array `$config`. */
  type Config = map<string, Value>

  const DEFAULT_LIFETIME: int := 1800
  const DEFAULT_PATH: string := "/"
  const DEFAULT_DOMAIN: string := ""
  const DEFAULT_HTTPONLY: bool := true
  const DEFAULT_SAMESITE: string := "Lax"
  const DEFAULT_NAME: string := "PHPSESSID"

  /** How far in the past the invalidation cookie's expiry is put, in seconds. */
  const INVALIDATION_OFFSET: int := 42000

  /** The setting names the defaults supply. */
  const SETTING_NAMES: set<string> := {"lifetime", "path", "domain", "secure", "httponly", "samesite", "name"}

  /** The default settings; `secure` is on exactly when the request came over HTTPS. */
  function Defaults(https: bool): (c: Config)
  {
    map[
      "lifetime" := Int(DEFAULT_LIFETIME),
      "path" := Str(DEFAULT_PATH),
      "domain" := Str(DEFAULT_DOMAIN),
      "secure" := Bool(https),
      "httponly" := Bool(DEFAULT_HTTPONLY),
      "samesite" := Str(DEFAULT_SAMESITE),
      "name" := Str(DEFAULT_NAME)
    ]
  }

  /** `array_merge($defaults, $caller)` on string keys: every caller setting wins over the default. */
  function Merge(defaults: Config, caller: Config): (r: Config)
    ensures r.Keys == defaults.Keys + caller.Keys
    ensures forall k :: k in caller ==> r[k] == caller[k]
    ensures forall k :: k in defaults && k !in caller ==> r[k] == defaults[k]
  {
    defaults + caller
  }

  /** The configuration a manager ends up with: each setting the caller's if given, else the default. */
  lemma MergedSettings(https: bool, caller: Config)
    ensures SETTING_NAMES <= Merge(Defaults(https), caller).Keys
    ensures var c := Merge(Defaults(https), caller);
      && (forall k :: k in caller ==> c[k] == caller[k])
      && ("lifetime" !in caller ==> c["lifetime"] == Int(1800))
      && ("path" !in caller ==> c["path"] == Str("/"))
      && ("domain" !in caller ==> c["domain"] == Str(""))
      && ("secure" !in caller ==> c["secure"] == Bool(https))
      && ("httponly" !in caller ==> c["httponly"] == Bool(true))
      && ("samesite" !in caller ==> c["samesite"] == Str("Lax"))
      && ("name" !in caller ==> c["name"] == Str("PHPSESSID"))
  {
  }

  /** What the manager passes to `session_name` and `session_set_cookie_params`. */
  datatype CookieRequest = CookieRequest(
    name: Value, lifetime: Value, path: Value, domain: Value,
    secure: Value, httponly: Value, samesite: Value)

  /** The cookie settings requested from the session runtime when the manager is built. */
  function RequestedSettings(c: Config): (req: CookieRequest)
    requires SETTING_NAMES <= c.Keys
  {
    CookieRequest(c["name"], c["lifetime"], c["path"], c["domain"], c["secure"], c["httponly"], c["samesite"])
  }

  /** Each requested cookie setting is the caller's when given, else the default. */
  lemma RequestedFromCaller(https: bool, caller: Config)
    ensures SETTING_NAMES <= Merge(Defaults(https), caller).Keys
    ensures var req := RequestedSettings(Merge(Defaults(https), caller));
      && req.name == (if "name" in caller then caller["name"] else Str(DEFAULT_NAME))
      && req.lifetime == (if "lifetime" in caller then caller["lifetime"] else Int(DEFAULT_LIFETIME))
      && req.path == (if "path" in caller then caller["path"] else Str(DEFAULT_PATH))
      && req.domain == (if "domain" in caller then caller["domain"] else Str(DEFAULT_DOMAIN))
      && req.secure == (if "secure" in caller then caller["secure"] else Bool(https))
      && req.httponly == (if "httponly" in caller then caller["httponly"] else Bool(DEFAULT_HTTPONLY))
      && req.samesite == (if "samesite" in caller then caller["samesite"] else Str(DEFAULT_SAMESITE))
  {
  }

  /** The cookie parameters the session runtime reports (`session_get_cookie_params`). */
  datatype CookieParams = CookieParams(
    lifetime: int, path: string, domain: string, secure: bool, httponly: bool, samesite: string)

  /** A cookie written to the response (`setcookie`). */
  datatype CookieWrite = CookieWrite(
    name: string, value: string, expires: int, path: string, domain: string, secure: bool, httponly: bool)

  /** The runtime holds exactly the session name and cookie parameters that were requested. */
  predicate Accepted(req: CookieRequest, name: string, p: CookieParams)
  {
    && req.name == Str(name)
    && req.lifetime == Int(p.lifetime)
    && req.path == Str(p.path)
    && req.domain == Str(p.domain)
    && req.secure == Bool(p.secure)
    && req.httponly == Bool(p.httponly)
    && req.samesite == Str(p.samesite)
  }

  /**
   The cookie that makes the browser drop the session cookie: same name, path,
   domain, secure and httponly flags, an empty value and an expiry in the past.
   */
  function InvalidationCookie(name: string, p: CookieParams, now: int): (c: CookieWrite)
    ensures c.value == "" && c.expires < now
    ensures c.name == name && c.path == p.path && c.domain == p.domain
    ensures c.secure == p.secure && c.httponly == p.httponly
  {
    CookieWrite(name, "", now - INVALIDATION_OFFSET, p.path, p.domain, p.secure, p.httponly)
  }

  /**
   When the runtime took over the settings of a manager built without overrides,
   the invalidation cookie targets the default session cookie.
   */
  lemma DefaultInvalidationCookie(https: bool, name: string, p: CookieParams, now: int)
    requires Accepted(RequestedSettings(Merge(Defaults(https), map[])), name, p)
    ensures InvalidationCookie(name, p, now) ==
            CookieWrite("PHPSESSID", "", now - 42000, "/", "", https, true)
  {
  }

  /**
   When the runtime took over the manager's settings, the invalidation cookie
   matches the configured cookie in every attribute a browser uses to find it.
   */
  lemma InvalidationMatchesConfig(c: Config, name: string, p: CookieParams, now: int)
    requires SETTING_NAMES <= c.Keys
    requires Accepted(RequestedSettings(c), name, p)
    ensures var w := InvalidationCookie(name, p, now);
      && c["name"] == Str(w.name) && c["path"] == Str(w.path) && c["domain"] == Str(w.domain)
      && c["secure"] == Bool(w.secure) && c["httponly"] == Bool(w.httponly)
  {
  }
}
