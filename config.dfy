/**
 * What the server reads from its environment: NODE_ENV, BASE_URL, ORIGIN_1
 * and ORIGIN_2. The base URL of every link the server hands out and the CORS
 * origin rule are functions of this record alone, never of a request.
 */
module Config {
  import opened Wrappers

  /** An unset variable is `None`; a variable set to the empty string is `Some("")`. */
  datatype Env = Env(
    nodeEnv: Option<string>,
    baseUrl: Option<string>,
    origin1: Option<string>,
    origin2: Option<string>)

  predicate IsProduction(env: Env) {
    env.nodeEnv == Some("production")
  }

  const DefaultBaseUrl: string := "http://localhost:3000"

  /** `production ? (BASE_URL || default) : default`: an unset or empty BASE_URL
      falls back to the default, and outside production it is ignored. */
  function BaseUrl(env: Env): (url: string)
    ensures url != ""
    ensures url == DefaultBaseUrl || (IsProduction(env) && env.baseUrl == Some(url))
    ensures !IsProduction(env) ==> url == DefaultBaseUrl
    ensures IsProduction(env) && env.baseUrl.Some? && env.baseUrl.value != "" ==> url == env.baseUrl.value
  {
    if IsProduction(env) && env.baseUrl.Some? && env.baseUrl.value != "" then env.baseUrl.value
    else DefaultBaseUrl
  }

  const DevOrigins: seq<string> := ["http://localhost:5173", "http://localhost:3000", "http://127.0.0.1:5500"]

  /** The list the CORS callback searches; in production an unset variable
      contributes an entry that no origin string equals. */
  function AllowedOrigins(env: Env): (list: seq<Option<string>>)
    ensures |list| == if IsProduction(env) then 2 else |DevOrigins|
    ensures forall o :: o in list <==>
      if IsProduction(env) then o == env.origin1 || o == env.origin2
      else o.Some? && o.value in DevOrigins
  {
    if IsProduction(env) then [env.origin1, env.origin2]
    else [Some(DevOrigins[0]), Some(DevOrigins[1]), Some(DevOrigins[2])]
  }

  /** The CORS origin callback: a request without an Origin header (or with an
      empty one) is let through; otherwise the origin must be on the list. */
  function CorsAllows(env: Env, origin: Option<string>): (allowed: bool)
    ensures origin.None? ==> allowed
    ensures allowed <==>
      || origin.None?
      || origin == Some("")
      || (IsProduction(env) && (origin == env.origin1 || origin == env.origin2))
      || (!IsProduction(env) && origin.Some? && origin.value in DevOrigins)
  {
    origin.None? || origin.value == "" || origin in AllowedOrigins(env)
  }

  /** In production with neither ORIGIN_1 nor ORIGIN_2 set, only requests
      that carry no origin are admitted. */
  lemma UnconfiguredProductionAdmitsOnlyOriginless(env: Env, origin: Option<string>)
    requires IsProduction(env) && env.origin1.None? && env.origin2.None?
    ensures CorsAllows(env, origin) <==> origin.None? || origin == Some("")
  {
  }

  // ---------------------------------------------------------------------------
  // The access URL and the route that reads it back

  const AccessPath: string := "/access-file/"

  /** `${baseUrl}/access-file/${token}`, the text encoded in the QR image. */
  function AccessUrl(env: Env, token: string): (url: string)
    ensures |url| == |BaseUrl(env)| + |AccessPath| + |token|
    ensures url[..|BaseUrl(env)|] == BaseUrl(env)
    ensures url[|BaseUrl(env)|..|BaseUrl(env)| + |AccessPath|] == "/access-file/"
    ensures url[|url| - |token|..] == token
  {
    BaseUrl(env) + AccessPath + token
  }

  /** A string Express can bind to `:token` unchanged: one non-empty path
      segment with no separator and nothing to percent-decode. */
  predicate IsPathSegment(s: string) {
    s != [] && forall i :: 0 <= i < |s| ==> s[i] !in "/?#%"
  }

  /** The route `/access-file/:token` applied to a URL under `base`: the value
      the handler finds in `req.params.token`, if the URL matches. */
  function RouteToken(base: string, url: string): (token: Option<string>)
    ensures token.Some? ==> IsPathSegment(token.value) && url == base + AccessPath + token.value
  {
    var n := |base| + |AccessPath|;
    if n <= |url| && url[..|base|] == base && url[|base|..n] == AccessPath && IsPathSegment(url[n..]) then
      assert url == url[..|base|] + url[|base|..n] + url[n..];
      Some(url[n..])
    else None
  }

  /** The URL put into a QR code routes back to the very token that was issued. */
  lemma AccessUrlRoutesToToken(env: Env, token: string)
    requires IsPathSegment(token)
    ensures RouteToken(BaseUrl(env), AccessUrl(env, token)) == Some(token)
  {
  }

  /** Distinct tokens give distinct access URLs. */
  lemma AccessUrlInjective(env: Env, t1: string, t2: string)
    requires IsPathSegment(t1) && IsPathSegment(t2)
    requires AccessUrl(env, t1) == AccessUrl(env, t2)
    ensures t1 == t2
  {
    AccessUrlRoutesToToken(env, t1);
    AccessUrlRoutesToToken(env, t2);
  }
}
