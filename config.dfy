/**
 * `Config::from_env` of src/config.rs: the site URL and the credentials taken
 * from the environment. The environment is a map from variable names to
 * values; `env::var(..).ok()` is a lookup, so a variable that is unset (or not
 * valid Unicode) is absent. Loading and saving the config file are not part
 * of this model.
 */
module Config {
  import opened Wrappers
  import opened Strings
  import opened Client

  type Env = map<string, string>

  datatype Config = Config(baseUrl: string, auth: AuthMethod)

  function Var(env: Env, name: string): (r: Option<string>)
    ensures r.Some? <==> name in env
    ensures r.Some? ==> r.value == env[name]
  {
    if name in env then Some(env[name]) else None
  }

  /** Where the site URL comes from: `CONFLUENCE_BASE_URL`, else
      `CONFLUENCE_URL`, else `https://` and `CONFLUENCE_DOMAIN`. */
  function UrlSource(env: Env): (r: Option<string>)
    ensures "CONFLUENCE_BASE_URL" in env ==> r == Some(env["CONFLUENCE_BASE_URL"])
    ensures "CONFLUENCE_BASE_URL" !in env && "CONFLUENCE_URL" in env ==> r == Some(env["CONFLUENCE_URL"])
    ensures "CONFLUENCE_BASE_URL" !in env && "CONFLUENCE_URL" !in env ==>
      r == (if "CONFLUENCE_DOMAIN" in env then Some("https://" + env["CONFLUENCE_DOMAIN"]) else None)
  {
    Var(env, "CONFLUENCE_BASE_URL")
      .Or(Var(env, "CONFLUENCE_URL"))
      .Or(match Var(env, "CONFLUENCE_DOMAIN") case Some(d) => Some("https://" + d) case None => None)
  }

  /** What goes in front of a URL that does not start with `http`. */
  function SchemePrefix(url: string): string {
    if StartsWith(url, "http") then "" else "https://"
  }

  /** `https://` in front unless the URL starts with `http`, and `/wiki` at
      the end unless the prefixed URL already ends with it. */
  function NormaliseUrl(url: string): (r: string)
    ensures StartsWith(r, "http") && EndsWith(r, "/wiki")
    ensures r == SchemePrefix(url) + url + (if EndsWith(SchemePrefix(url) + url, "/wiki") then "" else "/wiki")
    ensures StartsWith(url, "http") && EndsWith(url, "/wiki") ==> r == url
  {
    var u := if StartsWith(url, "http") then url else "https://" + url;
    assert StartsWith(u, "http");
    var r := if EndsWith(u, "/wiki") then u else u + "/wiki";
    assert r[..4] == u[..4];
    assert r[|r| - 5..] == "/wiki";
    r
  }

  /** The `/wiki` test looks at the prefixed URL: a bare domain `wiki` gets
      the scheme and no suffix. */
  lemma BareWikiDomain()
    ensures NormaliseUrl("wiki") == "https://wiki"
  {
    assert "wiki"[0] != "http"[0];
    assert !StartsWith("wiki", "http");
    assert SchemePrefix("wiki") + "wiki" == "https://wiki";
    assert "https://wiki"[7..] == "/wiki";
  }

  /** Normalising twice changes nothing more. */
  lemma NormaliseIdempotent(url: string)
    ensures NormaliseUrl(NormaliseUrl(url)) == NormaliseUrl(url)
  {
  }

  /** The credentials: a bearer token wins; basic auth needs both the email
      and the token. */
  function AuthFromEnv(env: Env): (r: Option<AuthMethod>)
    ensures "CONFLUENCE_BEARER_TOKEN" in env ==> r == Some(Bearer(env["CONFLUENCE_BEARER_TOKEN"]))
    ensures "CONFLUENCE_BEARER_TOKEN" !in env ==>
      r == (if "CONFLUENCE_EMAIL" in env && "CONFLUENCE_TOKEN" in env
            then Some(Basic(env["CONFLUENCE_EMAIL"], env["CONFLUENCE_TOKEN"])) else None)
  {
    match Var(env, "CONFLUENCE_BEARER_TOKEN")
    case Some(token) => Some(Bearer(token))
    case None =>
      match (Var(env, "CONFLUENCE_EMAIL"), Var(env, "CONFLUENCE_TOKEN"))
      case (Some(email), Some(token)) => Some(Basic(email, token))
      case _ => None
  }

  /** `Config::from_env`, which never fails: no URL source, or no usable
      credentials, gives no config. */
  function FromEnv(env: Env): (r: Result<Option<Config>>)
    ensures r.Ok?
    ensures r.value.Some? <==> UrlSource(env).Some? && AuthFromEnv(env).Some?
    ensures r.value.Some? ==>
      r.value.value == Config(NormaliseUrl(UrlSource(env).value), AuthFromEnv(env).value)
  {
    match UrlSource(env)
    case None => Ok(None)
    case Some(url) =>
      match AuthFromEnv(env)
      case Some(auth) => Ok(Some(Config(NormaliseUrl(url), auth)))
      case None => Ok(None)
  }

  /** The URL of a config from the environment always has a scheme and ends in
      `/wiki`. */
  lemma FromEnvUrlShape(env: Env)
    requires FromEnv(env).value.Some?
    ensures var c := FromEnv(env).value.value;
      StartsWith(c.baseUrl, "http") && EndsWith(c.baseUrl, "/wiki") && NormaliseUrl(c.baseUrl) == c.baseUrl
  {
    NormaliseIdempotent(UrlSource(env).value);
  }
}
