/**
 * The axios client of the storefront: the base URLs, the request
 * interceptor that attaches the stored token as a bearer header, and the
 * response interceptor that logs the user out on a 401.
 */
module Api {
  import opened Types
  import opened Text
  import AuthMiddleware

  const ApiUrl: string := "http://localhost:5000/api"

  /** The storage key of the admin token and of the cached user. */
  const TokenKey: string := "token"
  const UserInfoKey: string := "userInfo"
  const LoginPath: string := "/admin"

  /**
   * `r` is `url` with the leftmost match of `/\/?api\/?$/` removed: a prefix
   * of `url` that drops one of the five possible endings, drops nothing iff
   * `url` ends in neither 'api' nor 'api/', and, where only 'api' or 'api/'
   * was dropped, keeps no slash the pattern could have taken.
   */
  predicate StrippedApiSuffix(url: string, r: string)
  {
    && StartsWith(url, r)
    && url[|r|..] in {"/api/", "/api", "api/", "api", ""}
    && (url[|r|..] == "" <==> !EndsWith(url, "api") && !EndsWith(url, "api/"))
    && (url[|r|..] in {"api", "api/"} ==> !EndsWith(r, "/"))
  }

  /** `url.replace(/\/?api\/?$/, '')`. */
  function StripApiSuffix(url: string): (r: string)
    ensures StrippedApiSuffix(url, r)
  {
    var n := |url|;
    if EndsWith(url, "/api/") then
      StripSlashApiSlash(url);
      url[..n - 5]
    else if EndsWith(url, "api/") then
      StripApiSlash(url);
      url[..n - 4]
    else if EndsWith(url, "/api") then
      StripSlashApi(url);
      url[..n - 4]
    else if EndsWith(url, "api") then
      StripApi(url);
      url[..n - 3]
    else
      assert url[n..] == "";
      url
  }

  lemma StripSlashApiSlash(url: string)
    requires EndsWith(url, "/api/")
    ensures StrippedApiSuffix(url, url[..|url| - 5])
  {
    var n := |url|;
    assert url[n - 5..] == "/api/";
    assert url[n - 4..] == "api/";
  }

  lemma StripApiSlash(url: string)
    requires !EndsWith(url, "/api/") && EndsWith(url, "api/")
    ensures StrippedApiSuffix(url, url[..|url| - 4])
  {
    var n := |url|;
    assert url[n - 4..] == "api/";
    assert n >= 5 ==> url[n - 5..] == [url[n - 5]] + "api/";
  }

  lemma StripSlashApi(url: string)
    requires !EndsWith(url, "api/") && EndsWith(url, "/api")
    ensures StrippedApiSuffix(url, url[..|url| - 4])
  {
    var n := |url|;
    assert url[n - 4..] == "/api";
    assert url[n - 3..] == "api";
  }

  lemma StripApi(url: string)
    requires !EndsWith(url, "api/") && !EndsWith(url, "/api") && EndsWith(url, "api")
    ensures StrippedApiSuffix(url, url[..|url| - 3])
  {
    var n := |url|;
    assert url[n - 3..] == "api";
    assert n >= 4 ==> url[n - 4..] == [url[n - 4]] + "api";
  }

  const AssetsBase: string := StripApiSuffix(ApiUrl)

  /** The asset host is the API URL without its '/api' path. */
  lemma AssetsBaseValue()
    ensures AssetsBase == "http://localhost:5000"
    ensures ApiUrl == AssetsBase + "/api"
  {
    assert EndsWith(ApiUrl, "/api");
    assert !EndsWith(ApiUrl, "api/");
  }

  /** The header value for a stored token, when the token is truthy. */
  function AuthorizationFor(token: Option<string>): (h: Option<string>)
  {
    if token.Some? && token.value != "" then Some(AuthMiddleware.BearerPrefix + token.value) else None
  }

  /**
   * The header is added iff a non-empty token is stored; it is then the text
   * 'Bearer ', followed by the token, and it passes the middleware's header check.
   */
  lemma AuthorizationForSpec(token: Option<string>)
    ensures AuthorizationFor(token).Some? <==> token.Some? && token.value != ""
    ensures AuthorizationFor(token).Some? ==>
      && StartsWith(AuthorizationFor(token).value, AuthMiddleware.BearerPrefix)
      && AuthorizationFor(token).value[|AuthMiddleware.BearerPrefix|..] == token.value
      && AuthMiddleware.HasBearer(AuthorizationFor(token))
  {
  }

  /**
   * The header the client builds is parsed back by the middleware into the
   * same token, for every non-empty token without spaces, so the request is
   * decided on that token alone.
   */
  lemma HeaderRoundTrip(token: string, verify: string -> Option<AuthMiddleware.Claims>)
    requires token != "" && ' ' !in token
    ensures AuthMiddleware.HasBearer(AuthorizationFor(Some(token)))
    ensures AuthMiddleware.ExtractToken(AuthorizationFor(Some(token)).value) == token
    ensures AuthMiddleware.Decide(AuthorizationFor(Some(token)), verify)
         == AuthMiddleware.CheckToken(token, verify)
  {
    AuthMiddleware.TokenExtraction(token, "");
  }

  /** The browser state the interceptors read and write. */
  class Browser {
    var storage: map<string, string>
    var location: string

    constructor (storage: map<string, string>, location: string)
      ensures this.storage == storage && this.location == location
    {
      this.storage := storage;
      this.location := location;
    }

    /** `localStorage.getItem(key)`. */
    function GetItem(key: string): (v: Option<string>)
      reads this
      ensures v.Some? <==> key in storage
      ensures v.Some? ==> v.value == storage[key]
    {
      if key in storage then Some(storage[key]) else None
    }
  }

  /** The outgoing request's headers. */
  class RequestConfig {
    var headers: map<string, string>

    constructor (headers: map<string, string>)
      ensures this.headers == headers
    {
      this.headers := headers;
    }
  }

  /** A failed request; `status` is `error.response?.status`. */
  datatype ApiError = ApiError(status: Option<int>)

  /**
   * The request interceptor: with a truthy stored token the Authorization
   * header becomes 'Bearer ' + token; otherwise the headers are left as they are.
   */
  method InterceptRequest(config: RequestConfig, browser: Browser)
    modifies config
    ensures var token := browser.GetItem(TokenKey);
      if AuthorizationFor(token).Some?
      then config.headers == old(config.headers)["Authorization" := AuthMiddleware.BearerPrefix + token.value]
      else config.headers == old(config.headers)
  {
    var token := browser.GetItem(TokenKey);
    if token.Some? && token.value != "" {
      config.headers := config.headers["Authorization" := AuthMiddleware.BearerPrefix + token.value];
    }
  }

  /**
   * The response error interceptor: a 401 removes the token and the cached
   * user and sends the browser to the admin login; every error, 401 or not,
   * is rejected unchanged.
   */
  method InterceptError(error: ApiError, browser: Browser) returns (rejected: ApiError)
    modifies browser
    ensures rejected == error
    ensures error.status == Some(401) ==>
      browser.storage == old(browser.storage) - {TokenKey, UserInfoKey} && browser.location == LoginPath
    ensures error.status != Some(401) ==>
      browser.storage == old(browser.storage) && browser.location == old(browser.location)
  {
    if error.status == Some(401) {
      browser.storage := browser.storage - {TokenKey};
      browser.storage := browser.storage - {UserInfoKey};
      browser.location := LoginPath;
    }
    rejected := error;
  }
}
