/** The request front of the server: origin normalisation, the CORS allowlist
    built from the environment and the per-request origin decision, and the
    shim that puts the `/api` prefix back on paths that lack it. */
module Server {
  import opened Base
  import opened JsText

  // ---------------------------------------------------------------------
  // normalizeOrigin
  // ---------------------------------------------------------------------

  /** The value trimmed, with one trailing "/" removed if there is one; a
      falsy value gives "". The regular expression `/\/$/` anchors at the
      end and is not global, so only the last slash goes. */
  function NormalizeOrigin(value: Option<string>): (r: string)
    ensures !Truthy(value) ==> r == ""
    ensures Truthy(value) ==> r == Trim(value.value) || r + "/" == Trim(value.value)
    ensures Truthy(value) && r == Trim(value.value) ==> r == [] || r[|r| - 1] != '/'
  {
    if !Truthy(value) then ""
    else
      var t := Trim(value.value);
      if t != [] && t[|t| - 1] == '/' then t[..|t| - 1] else t
  }

  /** An origin that carries no surrounding whitespace and no trailing slash
      is already normal. */
  lemma NormalizeOriginOfNormal(s: string)
    requires s != [] && !IsWhitespace(s[0]) && !IsWhitespace(s[|s| - 1]) && s[|s| - 1] != '/'
    ensures NormalizeOrigin(Some(s)) == s
  {
    TrimStartOfNonBlank(s);
  }

  /** Whitespace around an origin makes no difference. */
  lemma NormalizeOriginIgnoresBlanks(w1: string, s: string, w2: string)
    requires forall i :: 0 <= i < |w1| ==> IsWhitespace(w1[i])
    requires forall i :: 0 <= i < |w2| ==> IsWhitespace(w2[i])
    requires s != [] && !IsWhitespace(s[0]) && !IsWhitespace(s[|s| - 1]) && s[|s| - 1] != '/'
    ensures NormalizeOrigin(Some(w1 + s + w2)) == s
  {
    TrimOfPadded(w1, s, w2);
  }

  /** One trailing slash, with whitespace around the whole, makes no
      difference either. */
  lemma NormalizeOriginIgnoresSlash(w1: string, s: string, w2: string)
    requires forall i :: 0 <= i < |w1| ==> IsWhitespace(w1[i])
    requires forall i :: 0 <= i < |w2| ==> IsWhitespace(w2[i])
    requires s != [] && !IsWhitespace(s[0]) && s[|s| - 1] != '/'
    ensures NormalizeOrigin(Some(w1 + s + "/" + w2)) == s
  {
    var slashed := s + "/";
    var v := w1 + s + "/" + w2;
    assert v == w1 + slashed + w2;
    TrimOfPadded(w1, slashed, w2);
    assert Trim(v) == slashed && v != "";
    assert slashed[|slashed| - 1] == '/' && slashed[..|s|] == s;
  }

  /** Only one slash goes, so normalising is not idempotent: "x//" becomes
      "x/", which normalises again to "x". */
  lemma NormalizeOriginNotIdempotent()
    ensures NormalizeOrigin(Some("x//")) == "x/"
    ensures NormalizeOrigin(Some(NormalizeOrigin(Some("x//")))) == "x"
  {
    TrimStartOfNonBlank("x//");
    TrimStartOfNonBlank("x/");
  }

  // ---------------------------------------------------------------------
  // The allowlist
  // ---------------------------------------------------------------------

  const DevOrigin := "http://localhost:5173"

  /** `(ALLOWED_ORIGINS || CLIENT_URL || '')` */
  function OriginSource(allowedOrigins: Option<string>, clientUrl: Option<string>): (s: string)
    ensures Truthy(allowedOrigins) ==> s == allowedOrigins.value
    ensures !Truthy(allowedOrigins) ==> s == OrEmpty(clientUrl)
  {
    if Truthy(allowedOrigins) then allowedOrigins.value else OrEmpty(clientUrl)
  }

  function NormalizeAll(pieces: seq<string>): (r: seq<string>)
    ensures |r| == |pieces| && forall i :: 0 <= i < |pieces| ==> r[i] == NormalizeOrigin(Some(pieces[i]))
  {
    seq(|pieces|, i requires 0 <= i < |pieces| => NormalizeOrigin(Some(pieces[i])))
  }

  /** `envAllowed`: the source split on ",", each piece normalised, the
      empty results dropped. */
  function EnvAllowed(allowedOrigins: Option<string>, clientUrl: Option<string>): (list: seq<string>)
    ensures forall i :: 0 <= i < |list| ==> list[i] != "" && ',' !in list[i]
  {
    var pieces := Split(OriginSource(allowedOrigins, clientUrl), ',');
    NormalizeAllKeepsOut(pieces, ',');
    var list := NonEmpty(NormalizeAll(pieces));
    assert forall i :: 0 <= i < |list| ==> list[i] in NormalizeAll(pieces);
    list
  }

  /** Normalising only removes characters: one absent from the value is
      absent from its normal form. */
  lemma NormalizeKeepsOut(p: string, c: char)
    requires c !in p
    ensures c !in NormalizeOrigin(Some(p))
  {
    if p != "" {
      var t := Trim(p);
      var n := LeadingWhitespace(p);
      forall k | 0 <= k < |t| ensures t[k] != c {
        assert t[k] == p[n + k];
      }
      if t != [] && t[|t| - 1] == '/' {
        var r := t[..|t| - 1];
        assert forall k :: 0 <= k < |r| ==> r[k] == t[k];
      }
    }
  }

  lemma NormalizeAllKeepsOut(pieces: seq<string>, c: char)
    requires forall i :: 0 <= i < |pieces| ==> c !in pieces[i]
    ensures forall o :: o in NormalizeAll(pieces) ==> c !in o
  {
    forall i | 0 <= i < |pieces| ensures c !in NormalizeAll(pieces)[i] {
      NormalizeKeepsOut(pieces[i], c);
    }
  }

  lemma NormalizeAllMembers(pieces: seq<string>, o: string)
    ensures o in NormalizeAll(pieces) <==> exists p :: p in pieces && NormalizeOrigin(Some(p)) == o
  {
    var n := NormalizeAll(pieces);
    if o in n {
      var i :| 0 <= i < |n| && n[i] == o;
      assert pieces[i] in pieces;
    }
    if exists p :: p in pieces && NormalizeOrigin(Some(p)) == o {
      var p :| p in pieces && NormalizeOrigin(Some(p)) == o;
      var i :| 0 <= i < |pieces| && pieces[i] == p;
      assert n[i] == o;
    }
  }

  /** An origin is in `envAllowed` exactly when it is the non-empty
      normalisation of one comma-separated piece of the source. */
  lemma EnvAllowedMembers(allowedOrigins: Option<string>, clientUrl: Option<string>, o: string)
    ensures o in EnvAllowed(allowedOrigins, clientUrl) <==>
      o != "" && exists p :: p in Split(OriginSource(allowedOrigins, clientUrl), ',') && NormalizeOrigin(Some(p)) == o
  {
    NormalizeAllMembers(Split(OriginSource(allowedOrigins, clientUrl), ','), o);
  }

  /** `(NODE_ENV || '').toLowerCase() !== 'production'`: an unset
      `NODE_ENV` counts as development. */
  predicate IsDev(nodeEnv: Option<string>) {
    ToLower(OrEmpty(nodeEnv)) != "production"
  }

  /** An unset or empty `NODE_ENV` is development. */
  lemma UnsetIsDev()
    ensures IsDev(None) && IsDev(Some(""))
  {
    assert ToLower("") == "";
  }

  /** "production" is recognised in any letter case: every spelling that
      has, at each position, the lower- or the upper-case letter of
      "production" turns development off. */
  lemma ProductionSpellings(nodeEnv: string)
    requires |nodeEnv| == |"production"|
    requires forall i :: 0 <= i < |nodeEnv| ==> nodeEnv[i] == "production"[i] || nodeEnv[i] == "PRODUCTION"[i]
    ensures !IsDev(Some(nodeEnv))
  {
    assert ToLower(nodeEnv) == "production";
  }

  /** `Array.from(new Set([...envAllowed, ...(isDev ? defaultDevOrigins : [])]))` */
  function Allowlist(allowedOrigins: Option<string>, clientUrl: Option<string>, nodeEnv: Option<string>)
    : (list: seq<string>)
    ensures NoDuplicates(list)
  {
    Unique(EnvAllowed(allowedOrigins, clientUrl) + (if IsDev(nodeEnv) then [DevOrigin] else []))
  }

  /** The allowlist holds the environment's origins, and the Vite dev origin
      exactly in development (or when the environment lists it), nothing else;
      no origin in it is empty. */
  lemma AllowlistMembers(allowedOrigins: Option<string>, clientUrl: Option<string>, nodeEnv: Option<string>,
                         o: string)
    ensures o in Allowlist(allowedOrigins, clientUrl, nodeEnv) <==>
      o in EnvAllowed(allowedOrigins, clientUrl) || (IsDev(nodeEnv) && o == DevOrigin)
    ensures o in Allowlist(allowedOrigins, clientUrl, nodeEnv) ==> o != ""
  {
    var all := EnvAllowed(allowedOrigins, clientUrl) + (if IsDev(nodeEnv) then [DevOrigin] else []);
    var list := Allowlist(allowedOrigins, clientUrl, nodeEnv);
    if o in list {
      var i :| 0 <= i < |list| && list[i] == o;
      assert o in all;
    }
    if o in all {
      var i :| 0 <= i < |all| && all[i] == o;
      assert o in list;
    }
  }

  // ---------------------------------------------------------------------
  // The origin decision
  // ---------------------------------------------------------------------

  /** `callback(null, true)` or `callback(new Error(message))`. */
  datatype CorsDecision = Allow | Reject(message: string)

  /** `corsOptions.origin`: no origin (curl, server-side calls) is let
      through; otherwise the normalised origin must be listed. The error
      quotes the origin as it was sent. */
  function DecideOrigin(allowlist: seq<string>, origin: Option<string>): (d: CorsDecision)
    ensures d == Allow <==> !Truthy(origin) || NormalizeOrigin(origin) in allowlist
    ensures d.Reject? ==> d.message == "Not allowed by CORS: " + origin.value
  {
    if !Truthy(origin) then Allow
    else if NormalizeOrigin(origin) in allowlist then Allow
    else Reject("Not allowed by CORS: " + origin.value)
  }

  /** In development the Vite dev server is allowed, with or without a
      trailing slash. */
  lemma DevOriginAllowed(allowedOrigins: Option<string>, clientUrl: Option<string>, nodeEnv: Option<string>)
    requires IsDev(nodeEnv)
    ensures DecideOrigin(Allowlist(allowedOrigins, clientUrl, nodeEnv), Some(DevOrigin)) == Allow
    ensures DecideOrigin(Allowlist(allowedOrigins, clientUrl, nodeEnv), Some(DevOrigin + "/")) == Allow
  {
    AllowlistMembers(allowedOrigins, clientUrl, nodeEnv, DevOrigin);
    DevOriginNormal();
  }

  /** In production the Vite dev server is refused unless the environment
      lists it. */
  lemma DevOriginRefused(allowedOrigins: Option<string>, clientUrl: Option<string>, nodeEnv: Option<string>)
    requires !IsDev(nodeEnv) && DevOrigin !in EnvAllowed(allowedOrigins, clientUrl)
    ensures DecideOrigin(Allowlist(allowedOrigins, clientUrl, nodeEnv), Some(DevOrigin)).Reject?
  {
    AllowlistMembers(allowedOrigins, clientUrl, nodeEnv, DevOrigin);
    DevOriginNormal();
  }

  lemma DevOriginNormal()
    ensures NormalizeOrigin(Some(DevOrigin)) == DevOrigin
    ensures NormalizeOrigin(Some(DevOrigin + "/")) == DevOrigin
  {
    var d := DevOrigin;
    assert d[0] == 'h' && d[|d| - 1] == '3';
    NormalizeOriginOfNormal(d);
    var v := d + "/";
    assert v[0] == 'h' && v[|v| - 1] == '/';
    TrimStartOfNonBlank(v);
    assert v[..|v| - 1] == d;
  }

  /** An origin listed in `ALLOWED_ORIGINS` is allowed however it is spelt
      there or sent, up to blanks and one trailing slash. */
  lemma ListedOriginAllowed(allowedOrigins: string, clientUrl: Option<string>, nodeEnv: Option<string>,
                            listed: string, origin: string)
    requires allowedOrigins != ""
    requires listed in Split(allowedOrigins, ',')
    requires NormalizeOrigin(Some(listed)) != ""
    requires NormalizeOrigin(Some(origin)) == NormalizeOrigin(Some(listed))
    ensures DecideOrigin(Allowlist(Some(allowedOrigins), clientUrl, nodeEnv), Some(origin)) == Allow
  {
    var o := NormalizeOrigin(Some(listed));
    EnvAllowedMembers(Some(allowedOrigins), clientUrl, o);
    AllowlistMembers(Some(allowedOrigins), clientUrl, nodeEnv, o);
  }

  // ---------------------------------------------------------------------
  // The /api rewrite shim
  // ---------------------------------------------------------------------

  /** `req.path`: the URL up to its query string. */
  function PathOf(url: string): (p: string)
    ensures |p| <= |url| && p == url[..|p|] && '?' !in p
    ensures |p| < |url| ==> url[|p|] == '?'
  {
    if url == [] then []
    else if url[0] == '?' then []
    else [url[0]] + PathOf(url[1..])
  }

  lemma {:induction false} PathOfPrefix(a: string, url: string)
    requires '?' !in a
    ensures PathOf(a + url) == a + PathOf(url)
  {
    if a != [] {
      assert (a + url)[0] == a[0] && a[0] != '?';
      assert (a + url)[1..] == a[1..] + url;
      PathOfPrefix(a[1..], url);
    } else {
      assert a + url == url;
    }
  }

  /** The shim's test: a path under `/posts` or `/auth` that is not already
      under `/api/`. Being a plain prefix test, it also catches paths such
      as `/postsfoo`. */
  predicate NeedsApiPrefix(url: string) {
    var p := PathOf(url);
    !StartsWith(p, "/api/") && (StartsWith(p, "/posts") || StartsWith(p, "/auth"))
  }

  function Rewritten(url: string): string {
    if NeedsApiPrefix(url) then "/api" + url else url
  }

  /** A rewritten URL is one the shim leaves alone, so running it twice is
      the same as running it once; and a rewritten URL's path is under
      `/api/`. */
  lemma RewrittenIdempotent(url: string)
    ensures Rewritten(Rewritten(url)) == Rewritten(url)
    ensures NeedsApiPrefix(url) ==> StartsWith(PathOf(Rewritten(url)), "/api/")
  {
    if NeedsApiPrefix(url) {
      var p := PathOf(url);
      PathOfPrefix("/api", url);
      assert PathOf(Rewritten(url)) == "/api" + p;
      assert p[0] == '/';
      assert ("/api" + p)[..5] == "/api/";
    }
  }

  /** The shim leaves `/api/...` paths and any path outside `/posts` and
      `/auth` as they are, and adds exactly the four characters `/api` in
      front of the others. */
  lemma RewrittenCases(url: string)
    ensures StartsWith(PathOf(url), "/api/") ==> Rewritten(url) == url
    ensures !StartsWith(PathOf(url), "/posts") && !StartsWith(PathOf(url), "/auth") ==> Rewritten(url) == url
    ensures Rewritten(url) != url ==> Rewritten(url) == "/api" + url
  {
  }

  /** A query string is carried along: "/posts?tag=x" becomes
      "/api/posts?tag=x". */
  lemma RewrittenKeepsQuery(path: string, query: string)
    requires '?' !in path && StartsWith(path, "/posts") && !StartsWith(path, "/api/")
    ensures Rewritten(path + "?" + query) == "/api" + path + "?" + query
  {
    PathOfPrefix(path, "?" + query);
    assert path + "?" + query == path + ("?" + query);
    assert (path + ("?" + query))[..|path|] == path;
  }

  /** The request object, whose URL the shim reassigns. */
  class Request {
    var url: string

    constructor (url: string)
      ensures this.url == url
    {
      this.url := url;
    }

    /** The shim. */
    method RewriteApiPrefix()
      modifies this
      ensures url == Rewritten(old(url))
    {
      if NeedsApiPrefix(url) {
        url := "/api" + url;
      }
    }
  }
}
