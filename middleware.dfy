/** The request middleware: public pages and static assets pass, any other
    page needs a session token (or the visitor is sent to the login page with
    a callback), and paths under `/admin` need the "ADMIN" role (or the
    visitor is sent home). */
module Middleware {
  import opened Seqs
  import opened Store

  datatype Decision =
    | Next
    | RedirectToLogin(callbackUrl: string)
    | RedirectHome

  const PublicPaths: seq<string> := ["/", "/products", "/auth/login", "/auth/register", "/api/auth"]

  /** The test `publicPaths.some` applies to each listed path. */
  predicate PublicTest(path: string, publicPath: string)
  {
    path == publicPath || "/api/auth/" <= path || "/products/" <= path
  }

  /** `publicPaths.some(...)` over any list. */
  predicate SomePublic(path: string, paths: seq<string>)
  {
    paths != [] && (PublicTest(path, paths[0]) || SomePublic(path, paths[1..]))
  }

  predicate IsPublicPath(path: string)
  {
    SomePublic(path, PublicPaths)
  }

  /** `some` holds exactly when the path is listed, or, the list being
      non-empty, when it lies under `/api/auth/` or `/products/`. */
  lemma {:induction false} SomePublicIff(path: string, paths: seq<string>)
    ensures SomePublic(path, paths) <==>
      paths != [] && (path in paths || "/api/auth/" <= path || "/products/" <= path)
  {
    if paths != [] {
      SomePublicIff(path, paths[1..]);
      assert paths == [paths[0]] + paths[1..];
    }
  }

  predicate IsStaticAsset(path: string)
  {
    "/_next" <= path || "/images" <= path || "/favicon.ico" <= path
  }

  /** The middleware's decision for a request for `path` (whose full URL is
      `url`), given the decoded token; `encodeUri` is `encodeURI`. */
  function Decide(path: string, url: string, token: Option<Token>, encodeUri: string -> string): Decision
  {
    if IsPublicPath(path) || IsStaticAsset(path) then Next
    else if token.None? then RedirectToLogin(encodeUri(url))
    else if "/admin" <= path && token.value.role != "ADMIN" then RedirectHome
    else Next
  }

  /** The public pages: exactly the five listed paths and whatever lies under
      `/api/auth/` or `/products/`. */
  lemma PublicPathsSpec(path: string)
    ensures IsPublicPath(path) <==>
      path in {"/", "/products", "/auth/login", "/auth/register", "/api/auth"} ||
      "/api/auth/" <= path || "/products/" <= path
  {
    SomePublicIff(path, PublicPaths);
  }

  /** The decision for every request: public pages and assets pass whoever
      asks; otherwise no token means the login redirect carrying the encoded
      URL; a path starting with `/admin` passes exactly for an admin and
      sends anyone else home; every other page passes any signed-in caller. */
  lemma DecideSpec(path: string, url: string, token: Option<Token>, encodeUri: string -> string)
    ensures IsPublicPath(path) || IsStaticAsset(path) ==> Decide(path, url, token, encodeUri) == Next
    ensures !IsPublicPath(path) && !IsStaticAsset(path) ==>
      && (token.None? <==> Decide(path, url, token, encodeUri) == RedirectToLogin(encodeUri(url)))
      && ("/admin" <= path ==> (Decide(path, url, token, encodeUri) == Next <==> IsAdmin(token)))
      && ("/admin" <= path && token.Some? && !IsAdmin(token) ==> Decide(path, url, token, encodeUri) == RedirectHome)
      && (!("/admin" <= path) && token.Some? ==> Decide(path, url, token, encodeUri) == Next)
  {
  }

  /** No admin page is public: every `/admin` path is checked against the
      role, so a signed-in non-admin never reaches one. */
  lemma AdminPagesGuarded(path: string, url: string, token: Option<Token>, encodeUri: string -> string)
    requires "/admin" <= path
    ensures Decide(path, url, token, encodeUri) == Next ==> IsAdmin(token)
  {
    PublicPathsSpec(path);
    assert path[1] == 'a' && path[2] == 'd';
  }

  /** The admin test is a plain prefix test: `/administrator` is treated as
      an admin page too. */
  lemma AdminPrefixIsTextual(url: string, encodeUri: string -> string)
    ensures Decide("/administrator", url, Some(Token("u1", "USER")), encodeUri) == RedirectHome
  {
    var path := "/administrator";
    PublicPathsSpec(path);
    assert path[1] == 'a' && path[2] == 'd';
    assert "/admin" <= path;
  }

  // ---------------------------------------------------------------------------
  // The matcher

  /** `favicon.ico` as the matcher's regular expression reads it, where the
      dot matches any character. */
  predicate FaviconPattern(s: string)
  {
    |s| >= 11 && s[..7] == "favicon" && s[8..11] == "ico"
  }

  /** The matcher `/((?!api/auth|_next/static|_next/image|favicon.ico).*)`:
      paths under those four prefixes never reach the middleware. */
  predicate Matched(path: string)
  {
    |path| >= 1 && path[0] == '/' &&
    var rest := path[1..];
    !("api/auth" <= rest || "_next/static" <= rest || "_next/image" <= rest || FaviconPattern(rest))
  }

  /** A request as the framework runs it: unmatched paths pass untouched. */
  function Handle(path: string, url: string, token: Option<Token>, encodeUri: string -> string): (d: Decision)
    ensures !Matched(path) ==> d == Next
    ensures Matched(path) ==> d == Decide(path, url, token, encodeUri)
  {
    if Matched(path) then Decide(path, url, token, encodeUri) else Next
  }

  /** Prefixing one character to both sides keeps the prefix relation. */
  lemma PrefixAfterSlash(path: string, x: string)
    requires |path| >= 1 && path[0] == '/'
    ensures "/" + x <= path <==> x <= path[1..]
  {
    if x <= path[1..] {
      assert ("/" + x) == path[..|x| + 1];
    }
    if "/" + x <= path {
      assert x == path[1..][..|x|];
    }
  }

  /** The favicon alternative, read on the whole path. */
  lemma FaviconAfterSlash(path: string)
    requires |path| >= 1 && path[0] == '/'
    ensures FaviconPattern(path[1..]) <==> |path| >= 12 && path[..8] == "/favicon" && path[9..12] == "ico"
  {
    if |path| >= 12 {
      var rest := path[1..];
      assert rest[..7] == path[1..8] && rest[8..11] == path[9..12];
      assert path[..8] == [path[0]] + path[1..8];
    }
  }

  /** The three fixed alternatives, read on the whole path. */
  lemma SkippedPrefixes(path: string)
    requires |path| >= 1 && path[0] == '/'
    ensures ("api/auth" <= path[1..]) == ("/api/auth" <= path)
    ensures ("_next/static" <= path[1..]) == ("/_next/static" <= path)
    ensures ("_next/image" <= path[1..]) == ("/_next/image" <= path)
  {
    PrefixAfterSlash(path, "api/auth");
    assert "/" + "api/auth" == "/api/auth";
    PrefixAfterSlash(path, "_next/static");
    assert "/" + "_next/static" == "/_next/static";
    PrefixAfterSlash(path, "_next/image");
    assert "/" + "_next/image" == "/_next/image";
  }

  /** The paths the matcher skips are exactly those starting with
      `/api/auth`, `/_next/static`, `/_next/image` or `/favicon`, any
      character and `ico`; a path not starting with a slash is never
      matched. Every skipped path passes whatever the token. */
  lemma UnmatchedPaths(path: string, url: string, token: Option<Token>, encodeUri: string -> string)
    ensures !Matched(path) <==>
      || !("/" <= path)
      || "/api/auth" <= path || "/_next/static" <= path || "/_next/image" <= path
      || (|path| >= 12 && path[..8] == "/favicon" && path[9..12] == "ico")
    ensures !Matched(path) ==> Handle(path, url, token, encodeUri) == Next
  {
    if "/" <= path {
      assert path[0] == '/';
      SkippedPrefixes(path);
      FaviconAfterSlash(path);
    }
  }

  /** API routes outside `/api/auth` are matched and not public, so a
      request without a token never reaches them: it is redirected to the
      login page and the route's own 401 answer is not what it gets. This
      covers `/api/orders` and `/api/invoices`. */
  lemma ApiWithoutTokenRedirected(path: string, url: string, encodeUri: string -> string)
    requires "/api/" <= path && !("/api/auth" <= path)
    ensures Handle(path, url, None, encodeUri) == RedirectToLogin(encodeUri(url))
  {
    PublicPathsSpec(path);
    assert path[..5] == "/api/" && path[1] == 'a' && path[2] == 'p';
    assert !IsStaticAsset(path);
    assert !("/api/auth/" <= path);
    assert path != "/api/auth" && |path| >= 5;
    assert path != "/products" && path != "/auth/login" && path != "/auth/register";
    var rest := path[1..];
    assert rest[0] == 'a';
    assert !("api/auth" <= rest);
    assert Matched(path);
  }
}
