/**
 * `apiFetch` of the front end: the headers it sends (the bearer token when
 * sign-in is on, a JSON content type for a plain body) and the URL it
 * sends them to (a relative path is joined to the configured base).
 */
module UseApi {
  import opened Wrappers
  import opened Text

  // ================================================================ configuration

  /** The build-time settings `VITE_AUTH_ENABLED` and `VITE_API_BASE`. */
  datatype Env = Env(authEnabled: Option<string>, apiBase: Option<string>)

  predicate AuthEnabled(env: Env) {
    env.authEnabled == Some("true")
  }

  /** `VITE_API_BASE || ""`. */
  function ApiBase(env: Env): string {
    env.apiBase.GetOr("")
  }

  // ================================================================ URL

  const HttpScheme: string := "http://"
  const HttpsScheme: string := "https://"

  /** `/^https?:\/\//i.test(path)`: the path starts with `http://` or
      `https://`, in any letter case. */
  predicate IsAbsolute(path: string) {
    || (|path| >= |HttpScheme| && Lower(path[..|HttpScheme|]) == HttpScheme)
    || (|path| >= |HttpsScheme| && Lower(path[..|HttpsScheme|]) == HttpsScheme)
  }

  /** `base.replace(/\/$/, "")`: one trailing slash removed. */
  function StripTrailingSlash(base: string): (r: string)
    ensures base == r || base == r + "/"
    ensures base == r + "/" <==> base != "" && base[|base| - 1] == '/'
  {
    if base != "" && base[|base| - 1] == '/' then base[..|base| - 1] else base
  }

  /** `path.replace(/^\//, "")`: one leading slash removed. */
  function StripLeadingSlash(path: string): (r: string)
    ensures path == r || path == "/" + r
    ensures path == "/" + r <==> path != "" && path[0] == '/'
  {
    if path != "" && path[0] == '/' then path[1..] else path
  }

  /** The URL `apiFetch` requests for `path`: absolute paths, and every path
      when no base is configured, as they are; otherwise the base and the
      path joined by one slash, each having lost at most one slash at the
      join. */
  function ResolveUrl(base: string, path: string): (url: string)
    ensures IsAbsolute(path) || base == "" ==> url == path
    ensures !IsAbsolute(path) && base != "" ==>
      url == StripTrailingSlash(base) + "/" + StripLeadingSlash(path)
  {
    if !IsAbsolute(path) && base != "" then
      StripTrailingSlash(base) + "/" + StripLeadingSlash(path)
    else path
  }

  /** Whether the base ends in a slash and the path starts with one makes no
      difference: the two are joined by exactly one slash. */
  lemma OneSlashAtJoin(base: string, path: string)
    requires base != "" && base[|base| - 1] != '/'
    requires path == "" || path[0] != '/'
    requires !IsAbsolute(path)
    ensures ResolveUrl(base, path) == base + "/" + path
    ensures ResolveUrl(base + "/", path) == base + "/" + path
    ensures ResolveUrl(base, "/" + path) == base + "/" + path
    ensures ResolveUrl(base + "/", "/" + path) == base + "/" + path
  {
    assert (base + "/")[..|base|] == base;
    assert ("/" + path)[1..] == path;
    SlashPathNotAbsolute("/" + path);
  }

  /** The scheme test ignores letter case, and an absolute URL is requested
      unchanged whatever the base. */
  lemma UpperCaseSchemeIsAbsolute(base: string)
    ensures IsAbsolute("HTTPS://cdn.example.com/a.jpg")
    ensures ResolveUrl(base, "HTTPS://cdn.example.com/a.jpg") == "HTTPS://cdn.example.com/a.jpg"
  {
    var p := "HTTPS://cdn.example.com/a.jpg";
    assert p[..|HttpsScheme|] == "HTTPS://";
    LowerLiteral("HTTPS://", HttpsScheme);
  }

  /** `Lower(s) == t`, checked character by character. */
  lemma LowerLiteral(s: string, t: string)
    requires |s| == |t| && forall i :: 0 <= i < |s| ==> LowerChar(s[i]) == t[i]
    ensures Lower(s) == t
  {
  }

  /** Only one slash is dropped on each side of the join: a base ending in
      two slashes and a path starting with two are joined by three. */
  lemma OnlyOneSlashDropped(base: string, path: string)
    ensures ResolveUrl(base + "//", "//" + path) == base + "///" + path
  {
    SlashPathNotAbsolute("//" + path);
    assert (base + "//")[..|base| + 1] == base + "/";
    assert ("//" + path)[1..] == "/" + path;
  }

  /** A path starting with a slash is relative. */
  lemma SlashPathNotAbsolute(path: string)
    requires path != "" && path[0] == '/'
    ensures !IsAbsolute(path)
  {
    assert Lower(path)[0] == '/';
  }

  // ================================================================ headers

  /** Adding `value` under `name` to a header map keyed by lower-cased
      names: a repeated name keeps both values, joined by `, `. */
  function Appended(fields: map<string, string>, name: string, value: string): (m: map<string, string>)
    ensures Lower(name) in m && m.Keys == fields.Keys + {Lower(name)}
    ensures forall k :: k in fields && k != Lower(name) ==> m[k] == fields[k]
    ensures Lower(name) in fields ==> m[Lower(name)] == fields[Lower(name)] + ", " + value
    ensures Lower(name) !in fields ==> m[Lower(name)] == value
  {
    var k := Lower(name);
    fields[k := if k in fields then fields[k] + ", " + value else value]
  }

  /** The headers `new Headers(init)` holds: the entries appended in order. */
  function Initial(init: seq<(string, string)>): (m: map<string, string>)
    ensures forall k :: k in m ==> Lower(k) == k
    decreases |init|
  {
    if init == [] then map[]
    else
      var last := init[|init| - 1];
      LowerIdempotent(last.0);
      Appended(Initial(init[..|init| - 1]), last.0, last.1)
  }

  lemma LowerIdempotent(s: string)
    ensures Lower(Lower(s)) == Lower(s)
  {
  }

  /** A `Headers` object. Names are compared without regard to letter case,
      so the map is keyed by lower-cased names. */
  class Headers {
    var fields: map<string, string>

    predicate Valid()
      reads this
    {
      forall k :: k in fields ==> Lower(k) == k
    }

    /** `new Headers(init)`. */
    constructor (init: seq<(string, string)>)
      ensures fields == Initial(init) && Valid()
    {
      var m := map[];
      var i := 0;
      while i < |init|
        invariant 0 <= i <= |init|
        invariant m == Initial(init[..i])
      {
        assert init[..i + 1][..i] == init[..i];
        m := Appended(m, init[i].0, init[i].1);
        i := i + 1;
      }
      assert init[..|init|] == init;
      fields := m;
    }

    /** `headers.has(name)`. */
    function Has(name: string): (b: bool)
      reads this
      ensures b <==> Lower(name) in fields
    {
      Lower(name) in fields
    }

    /** `headers.set(name, value)`: the one value under `name`, every other
      header kept. */
    method Set(name: string, value: string)
      requires Valid()
      modifies this
      ensures fields == old(fields)[Lower(name) := value] && Valid()
    {
      LowerIdempotent(name);
      fields := fields[Lower(name) := value];
    }
  }

  // ================================================================ apiFetch

  /** `options.body`: none, a string, a `FormData`, or another object. */
  datatype Body = NoBody | TextBody(text: string) | FormDataBody | OtherBody

  /** Truthiness of the body. */
  predicate HasBody(b: Body) {
    match b
    case NoBody => false
    case TextBody(t) => t != ""
    case FormDataBody => true
    case OtherBody => true
  }

  datatype Options = Options(headers: seq<(string, string)>, body: Body)

  /** What `fetch` is called with. */
  datatype Request = Request(url: string, headers: map<string, string>, body: Body)

  const AuthorizationKey: string := "authorization"
  const ContentTypeKey: string := "content-type"
  const JsonType: string := "application/json"
  const NotAuthenticated: string := "Not authenticated"

  lemma HeaderNames()
    ensures Lower("Authorization") == AuthorizationKey
    ensures Lower("Content-Type") == ContentTypeKey
  {
    LowerLiteral("Authorization", AuthorizationKey);
    LowerLiteral("Content-Type", ContentTypeKey);
  }

  /** `apiFetch(path, options)` up to the `fetch` call. The signed-in state
      and the token `getAccessTokenSilently` yields are parameters; a
      failure is the error thrown before any request is made. */
  method ApiFetch(env: Env, isAuthenticated: bool, token: string, path: string, options: Options)
    returns (res: Result<Request>)
    ensures res.Err? <==> AuthEnabled(env) && !isAuthenticated
    ensures res.Err? ==> res.error == NotAuthenticated
    ensures res.Ok? ==> res.value.url == ResolveUrl(ApiBase(env), path) && res.value.body == options.body
    ensures res.Ok? && AuthEnabled(env) ==>
      AuthorizationKey in res.value.headers && res.value.headers[AuthorizationKey] == "Bearer " + token
    ensures res.Ok? && !AuthEnabled(env) ==>
      (AuthorizationKey in res.value.headers <==> AuthorizationKey in Initial(options.headers))
    ensures res.Ok? && ContentTypeKey in Initial(options.headers) ==>
      ContentTypeKey in res.value.headers && res.value.headers[ContentTypeKey] == Initial(options.headers)[ContentTypeKey]
    ensures res.Ok? && ContentTypeKey !in Initial(options.headers) ==>
      (ContentTypeKey in res.value.headers <==> HasBody(options.body) && !options.body.FormDataBody?)
    ensures res.Ok? && ContentTypeKey !in Initial(options.headers) && ContentTypeKey in res.value.headers ==>
      res.value.headers[ContentTypeKey] == JsonType
    ensures res.Ok? ==> forall k :: k != AuthorizationKey && k != ContentTypeKey ==>
      (k in res.value.headers <==> k in Initial(options.headers)) &&
      (k in res.value.headers ==> res.value.headers[k] == Initial(options.headers)[k])
    ensures res.Ok? && !AuthEnabled(env) && AuthorizationKey in Initial(options.headers) ==>
      res.value.headers[AuthorizationKey] == Initial(options.headers)[AuthorizationKey]
  {
    HeaderNames();
    var headers := new Headers(options.headers);
    var isFormData := options.body.FormDataBody?;

    if AuthEnabled(env) {
      if !isAuthenticated {
        return Err(NotAuthenticated);
      }
      headers.Set("Authorization", "Bearer " + token);
    }

    if !headers.Has("Content-Type") && HasBody(options.body) && !isFormData {
      headers.Set("Content-Type", JsonType);
    }

    var isAbsolute := IsAbsolute(path);
    var url := path;
    var apiBase := ApiBase(env);
    if !isAbsolute && apiBase != "" {
      url := StripTrailingSlash(apiBase) + "/" + StripLeadingSlash(path);
    }

    return Ok(Request(url, headers.fields, options.body));
  }
}
