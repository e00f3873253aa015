/** Redirect and cookie-path rewriting of a stripped route, and how it undoes the stripping. */
module Rewrite {
  import opened Text
  import opened Config
  import opened Locations

  /** A non-root route path, which is what a rewriting route has. */
  predicate ValidPrefix(prefix: string) {
    ValidPath(prefix) && prefix != "/"
  }

  // ---- The rules ----

  /** The look-ahead of the redirect rules, on the text after the first slash: the prefix's own name, ended by a
      slash, the end or a query. */
  predicate Protected(name: string, rest: string) {
    name <= rest && (|rest| == |name| || rest[|name|] == '/' || rest[|name|] == '?')
  }

  predicate CookieProtected(name: string, rest: string) {
    name <= rest && (|rest| == |name| || rest[|name|] == '/')
  }

  predicate RootRelative(v: string) {
    v != "" && v[0] == '/'
  }

  predicate ProtocolRelative(v: string) {
    "//" <= v
  }

  /** Where the path of an absolute URL starts: the first slash at or after `i`. */
  function FirstSlash(v: string, i: nat): (r: nat)
    requires i <= |v|
    ensures i <= r <= |v| && (r < |v| ==> v[r] == '/') && (forall j :: i <= j < r ==> v[j] != '/')
    decreases |v| - i
  {
    if i == |v| || v[i] == '/' then i else FirstSlash(v, i + 1)
  }

  function SchemeLength(v: string): (n: nat)
    ensures n <= |v|
  {
    if "http://" <= v then 7 else if "https://" <= v then 8 else 0
  }

  predicate Digits(s: string) {
    s != "" && forall i :: 0 <= i < |s| ==> '0' <= s[i] <= '9'
  }

  /** The route's domain with or without a port, or one of the upstream addresses with its port. */
  predicate Known(authority: string, domain: string, upstreams: set<string>) {
    || authority == Lower(domain)
    || (Lower(domain) + ":" <= authority && Digits(authority[|domain| + 1..]))
    || authority in upstreams
  }

  /** `proxy_redirect`, all rules of a route. A rule replaces the whole value by the prefix and the part it captured. */
  function Redirect(prefix: string, domain: string, upstreams: set<string>, v: string): string
    requires ValidPrefix(prefix)
  {
    var name := prefix[1..];
    if RootRelative(v) then
      if !ProtocolRelative(v) && !Protected(name, v[1..]) then prefix + v else v
    else
      var start := SchemeLength(v);
      var slash := FirstSlash(v, start);
      if start > 0 && slash < |v| && Known(v[start..slash], domain, upstreams) && !Protected(name, v[slash + 1..])
      then prefix + v[slash..] else v
  }

  /** `proxy_cookie_path` */
  function CookiePath(prefix: string, v: string): string
    requires ValidPrefix(prefix)
  {
    if RootRelative(v) && !CookieProtected(prefix[1..], v[1..]) then prefix + v else v
  }

  // ---- Applying a rule again ----

  lemma PrefixedIsProtected(prefix: string, v: string)
    requires ValidPrefix(prefix) && RootRelative(v)
    ensures RootRelative(prefix + v) && !ProtocolRelative(prefix + v)
    ensures Protected(prefix[1..], (prefix + v)[1..]) && CookieProtected(prefix[1..], (prefix + v)[1..])
  {
    var name := prefix[1..];
    assert (prefix + v)[1..] == name + v;
    assert (prefix + v)[1] == prefix[1];
  }

  /** Rewriting twice equals rewriting once, for redirects and for cookie paths. */
  lemma RewriteIdempotent(prefix: string, domain: string, upstreams: set<string>, v: string)
    requires ValidPrefix(prefix)
    ensures Redirect(prefix, domain, upstreams, Redirect(prefix, domain, upstreams, v)) == Redirect(prefix, domain, upstreams, v)
    ensures CookiePath(prefix, CookiePath(prefix, v)) == CookiePath(prefix, v)
  {
    if RootRelative(v) {
      PrefixedIsProtected(prefix, v);
    } else {
      var slash := FirstSlash(v, SchemeLength(v));
      if slash < |v| {
        PrefixedIsProtected(prefix, v[slash..]);
      }
    }
  }

  /** A URL path lies under the prefix: it is the prefix, or continues it with a segment, a query or a fragment. */
  predicate Under(prefix: string, v: string) {
    prefix <= v && (|v| == |prefix| || v[|prefix|] in {'/', '?', '#'})
  }

  /** Root-relative values are left alone exactly if they are protocol-relative or already under the prefix, save
      for a fragment directly behind the prefix. */
  lemma UnchangedExactly(prefix: string, domain: string, upstreams: set<string>, v: string)
    requires ValidPrefix(prefix) && RootRelative(v)
    ensures Redirect(prefix, domain, upstreams, v) == v <==> ProtocolRelative(v) || (Under(prefix, v) && !(prefix + "#" <= v))
  {
    assert |prefix + v| > |v|;
    if prefix <= v {
      assert v[1..][..|prefix| - 1] == prefix[1..];
    }
    if prefix[1..] <= v[1..] {
      assert v == [v[0]] + v[1..] && prefix == [prefix[0]] + prefix[1..];
      assert v[..|prefix|] == prefix;
    }
  }

  /** So an application's redirect to a fragment of its own root is prefixed a second time, although
      docs/response-rewriting.md keeps already-prefixed paths. */
  lemma FragmentPrefixedTwice()
    ensures Under("/api", "/api#top") && Redirect("/api", "example.org", {}, "/api#top") == "/api/api#top"
  {
    var prefix, v := "/api", "/api#top";
    assert prefix[1..] == "api" && v[1..] == "api#top";
    assert "api#top"[3] == '#';
    assert !Protected("api", "api#top");
    assert v[0] == '/' && v[1] == 'a';
    assert v[..4] == prefix;
    assert prefix + v == "/api/api#top";
  }

  /** An absolute redirect to anyone else is left alone. */
  lemma ExternalKept(prefix: string, domain: string, upstreams: set<string>, scheme: string, authority: string, path: string)
    requires ValidPrefix(prefix) && scheme in {"http://", "https://"} && RootRelative(path)
    requires forall i :: 0 <= i < |authority| ==> authority[i] != '/'
    ensures var v := scheme + authority + path;
            Redirect(prefix, domain, upstreams, v)
            == if Known(authority, domain, upstreams) && !Protected(prefix[1..], path[1..]) then prefix + path else v
  {
    hide Known, Protected, SchemeLength, FirstSlash;
    var v := scheme + authority + path;
    assert v == scheme + (authority + path);
    SchemeRead(scheme, authority + path);
    UrlParts(scheme, authority, path);
    SlashAt(v, |scheme|, |scheme| + |authority|);
  }

  /** The rules, written out, for root-relative values. */
  lemma RelativeExactly(prefix: string, domain: string, upstreams: set<string>, v: string)
    requires ValidPrefix(prefix) && v != "" && v[0] == '/'
    ensures Redirect(prefix, domain, upstreams, v)
            == if "//" <= v || v == prefix || prefix + "/" <= v || prefix + "?" <= v then v else prefix + v
    ensures CookiePath(prefix, v) == if v == prefix || prefix + "/" <= v then v else prefix + v
  {
    BehindSlash(prefix, v);
    hide Known;
  }

  lemma BehindSlash(prefix: string, v: string)
    requires prefix != "" && prefix[0] == '/' && v != "" && v[0] == '/'
    ensures Protected(prefix[1..], v[1..]) <==> v == prefix || prefix + "/" <= v || prefix + "?" <= v
    ensures CookieProtected(prefix[1..], v[1..]) <==> v == prefix || prefix + "/" <= v
  {
    var n := |prefix|;
    assert v == [v[0]] + v[1..] && prefix == [prefix[0]] + prefix[1..];
    if prefix[1..] <= v[1..] {
      assert v[..n] == prefix;
      assert |v| > n ==> v[1..][n - 1] == v[n];
      if |v| > n {
        assert v[..n + 1] == prefix + [v[n]];
      } else {
        assert v == prefix;
      }
    }
    if prefix + "/" <= v {
      assert v[..n] == prefix && v[n] == '/' && v[1..][..n - 1] == prefix[1..] && v[1..][n - 1] == '/';
    }
    if prefix + "?" <= v {
      assert v[..n] == prefix && v[n] == '?' && v[1..][..n - 1] == prefix[1..] && v[1..][n - 1] == '?';
    }
  }

  /** And for absolute ones: only those of the route's domain, with or without a port, or of an upstream are rewritten. */
  lemma AbsoluteExactly(prefix: string, domain: string, upstreams: set<string>, scheme: string, authority: string, path: string)
    requires ValidPrefix(prefix) && scheme in {"http://", "https://"} && path != "" && path[0] == '/'
    requires forall i :: 0 <= i < |authority| ==> authority[i] != '/'
    ensures Redirect(prefix, domain, upstreams, scheme + authority + path)
            == if && (|| authority == Lower(domain) || authority in upstreams
                      || exists port :: && authority == Lower(domain) + ":" + port && port != ""
                                        && forall i :: 0 <= i < |port| ==> '0' <= port[i] <= '9')
                  && !(path == prefix || prefix + "/" <= path || prefix + "?" <= path)
               then prefix + path else scheme + authority + path
  {
    ExternalKept(prefix, domain, upstreams, scheme, authority, path);
    BehindSlash(prefix, path);
    KnownExactly(authority, domain, upstreams);
    hide *;
  }

  lemma KnownExactly(authority: string, domain: string, upstreams: set<string>)
    ensures Known(authority, domain, upstreams) <==>
            || authority == Lower(domain) || authority in upstreams
            || exists port :: && authority == Lower(domain) + ":" + port && port != ""
                              && forall i :: 0 <= i < |port| ==> '0' <= port[i] <= '9'
  {
    var own := Lower(domain) + ":";
    if own <= authority && Digits(authority[|domain| + 1..]) {
      var port := authority[|domain| + 1..];
      assert authority == own + port;
    }
    if port :| authority == own + port && port != "" && forall i :: 0 <= i < |port| ==> '0' <= port[i] <= '9' {
      assert authority[..|own|] == own && authority[|domain| + 1..] == port;
    }
  }

  /** Anything else is left alone. */
  lemma OtherwiseKept(prefix: string, domain: string, upstreams: set<string>, v: string)
    requires ValidPrefix(prefix) && !("/" <= v) && !("http://" <= v) && !("https://" <= v)
    ensures Redirect(prefix, domain, upstreams, v) == v && CookiePath(prefix, v) == v
  {
    assert v != "" && v[0] == '/' ==> "/" <= v;
    hide Known, Protected, CookieProtected;
  }

  lemma UrlParts(scheme: string, authority: string, path: string)
    requires RootRelative(path) && forall i :: 0 <= i < |authority| ==> authority[i] != '/'
    ensures var v := scheme + authority + path; var slash := |scheme| + |authority|;
            && v[slash] == '/' && v[|scheme|..slash] == authority && v[slash..] == path && v[slash + 1..] == path[1..]
            && forall j :: |scheme| <= j < slash ==> v[j] != '/'
  {
    var v, slash := scheme + authority + path, |scheme| + |authority|;
    forall j | |scheme| <= j < slash ensures v[j] != '/' {
      assert v[j] == authority[j - |scheme|];
    }
  }

  lemma SchemeRead(scheme: string, rest: string)
    requires scheme in {"http://", "https://"}
    ensures SchemeLength(scheme + rest) == |scheme| && !RootRelative(scheme + rest)
  {
    assert scheme <= scheme + rest;
    assert scheme == "https://" ==> (scheme + rest)[4] == 's';
    assert "http://"[4] == ':';
  }

  lemma {:induction false} SlashAt(v: string, i: nat, slash: nat)
    requires i <= slash < |v| && v[slash] == '/' && forall j :: i <= j < slash ==> v[j] != '/'
    ensures FirstSlash(v, i) == slash
    decreases slash - i
  {
    if i < slash {
      SlashAt(v, i + 1, slash);
    }
  }

  // ---- Rewriting undoes stripping ----

  /** Where the path of a root-relative URL ends: at its query, its fragment or its end. */
  function PathEnd(v: string): (n: nat)
    ensures n <= |v| && (forall i :: 0 <= i < n ==> v[i] != '?' && v[i] != '#') && (n < |v| ==> v[n] == '?' || v[n] == '#')
  {
    if v == "" || v[0] == '?' || v[0] == '#' then 0 else 1 + PathEnd(v[1..])
  }

  /** What a browser sends as the path of a request, and the query and fragment behind it. */
  function PathOf(v: string): string {
    v[..PathEnd(v)]
  }

  function TailOf(v: string): string {
    v[PathEnd(v)..]
  }

  /** A prefix without query or fragment joins the path and leaves the tail alone. */
  lemma PathJoins(prefix: string, v: string)
    requires forall i :: 0 <= i < |prefix| ==> prefix[i] != '?' && prefix[i] != '#'
    ensures PathOf(prefix + v) == prefix + PathOf(v) && TailOf(prefix + v) == TailOf(v)
  {
    var w, n := prefix + v, |prefix| + PathEnd(v);
    forall i | 0 <= i < n ensures w[i] != '?' && w[i] != '#' {
      if i >= |prefix| {
        assert w[i] == v[i - |prefix|];
      }
    }
    assert n < |w| ==> w[n] == v[PathEnd(v)];
    PathEndsAt(w, n);
    assert w[..n] == prefix + PathOf(v) && w[n..] == TailOf(v);
  }

  lemma {:induction false} PathEndsAt(v: string, n: nat)
    requires n <= |v| && (forall i :: 0 <= i < n ==> v[i] != '?' && v[i] != '#') && (n < |v| ==> v[n] == '?' || v[n] == '#')
    ensures PathEnd(v) == n
  {
    if n > 0 {
      PathEndsAt(v[1..], n - 1);
    }
  }

  lemma PathPlain(prefix: string)
    requires ValidPath(prefix)
    ensures forall i :: 0 <= i < |prefix| ==> prefix[i] != '?' && prefix[i] != '#'
  {
  }

  /** Rewriting a redirect and then stripping the path that a browser asks for gives the application's path back
      exactly if the redirect was rewritten; the query and the fragment are carried along in any case. */
  lemma StripUndoesRewrite(prefix: string, domain: string, upstreams: set<string>, v: string)
    requires ValidPrefix(prefix) && RootRelative(v)
    ensures var w := Redirect(prefix, domain, upstreams, v);
            && TailOf(w) == TailOf(v)
            && ((prefix <= PathOf(w) && Application(prefix, PathOf(w)) == PathOf(v)) <==> w != v)
  {
    hide Known;
    PathPlain(prefix);
    PathJoins(prefix, v);
    RedirectTo(prefix, domain, upstreams, v);
    var p := PathOf(v);
    assert prefix <= p ==> |p[|prefix|..]| == |p| - |prefix|;
    assert (prefix + p)[|prefix|..] == p;
    assert |prefix + v| > |v|;
  }

  /** A path below a route's own is served by every route that serves the whole of it; the longer ones all lie
      below that route. */
  lemma DeeperRoutes(r: Route, q: Route, v: string)
    requires ValidPrefix(r.path) && ValidPath(q.path) && RootRelative(v) && Serves(q, r.path + v)
    ensures |q.path| > |r.path| ==> r.path + "/" <= q.path
    ensures Serves(r, r.path + v)
  {
    var w := r.path + v;
    assert w[..|r.path| + 1] == r.path + "/";
    if |q.path| > |r.path| {
      assert q.path == w[..|q.path|];
      assert q.path[..|r.path| + 1] == w[..|r.path| + 1];
    }
  }

  lemma NeverChallenge(host: Host, prefix: string, v: string)
    requires ValidPrefix(prefix)
    ensures !IsChallenge(host, prefix + v)
  {
    NoDot(prefix, 1);
    assert (prefix + v)[1] == prefix[1];
    assert ACME[1] == '.';
  }

  lemma {:induction false} BestExists(routes: seq<Route>, path: string, start: Route) returns (r: Route)
    requires start in routes && Serves(start, path)
    ensures Best(routes, path, r) && |r.path| >= |start.path|
    decreases |path| + 1 - |start.path|
  {
    if forall q :: q in routes && Serves(q, path) ==> |q.path| <= |start.path| {
      r := start;
    } else {
      var q :| q in routes && Serves(q, path) && |q.path| > |start.path|;
      r := BestExists(routes, path, q);
    }
  }

  /** A longer route takes the path. */
  predicate Taken(host: Host, r: Route, path: string) {
    exists q :: q in host.routes && r.path + "/" <= q.path && Serves(q, path)
  }

  /** The location passes the request on to the route, and asks its application for this path. */
  predicate Delivers(host: Host, r: Route, l: Location, path: string, asked: string) {
    l.action.Proxy? && l.action.upstream == Up(host.id, r) && |l.match_.path| <= |path| && Forwarded(l, path) == asked
  }

  /** The whole way round: the application redirects to a path of its own, with whatever query and fragment; the
      browser asks for the path of the rewritten redirect; nginx chooses the same route again, and asks the
      application for exactly the path it named, if and only if no deeper route takes the rewritten path. */
  lemma RedirectComesBack(settings: Settings, host: Host, secure: bool, r: Route, upstreams: set<string>, v: string, l: Location)
    requires ValidHost(host) && r in host.routes && r.rewrite.Some? && RouteTargets(r) != []
    requires RootRelative(v) && ValidPrefix(r.path) && Redirect(r.path, host.domain, upstreams, v) != v
    requires Chosen(HostLocations(settings, host, secure), PathOf(Redirect(r.path, host.domain, upstreams, v)), l)
    ensures var w := Redirect(r.path, host.domain, upstreams, v);
            && PathOf(w) == r.path + PathOf(v) && TailOf(w) == TailOf(v)
            && (Delivers(host, r, l, PathOf(w), PathOf(v)) <==> !Taken(host, r, PathOf(w)))
  {
    hide HostLocations, ValidHost, Redirect, Known, Chosen, Taken, Delivers;
    RedirectTo(r.path, host.domain, upstreams, v);
    PathPlain(r.path);
    PathJoins(r.path, v);
    PathRooted(v);
    var p := PathOf(v);
    if Taken(host, r, r.path + p) {
      NotDelivered(settings, host, secure, r, p, l);
    } else {
      Delivered(settings, host, secure, r, p, l);
    }
  }

  lemma PathRooted(v: string)
    requires RootRelative(v)
    ensures RootRelative(PathOf(v))
  {
  }

  lemma Delivered(settings: Settings, host: Host, secure: bool, r: Route, p: string, l: Location)
    requires ValidHost(host) && r in host.routes && r.rewrite.Some? && RouteTargets(r) != [] && RootRelative(p)
    requires !Taken(host, r, r.path + p) && Chosen(HostLocations(settings, host, secure), r.path + p, l)
    ensures Delivers(host, r, l, r.path + p, p)
  {
    hide HostLocations, ValidHost, Chosen;
    RewritingRoute(host, r);
    NeverChallenge(host, r.path, p);
    forall q | q in host.routes && Serves(q, r.path + p) ensures |q.path| <= |r.path| {
      RoutePathValid(host, q);
      DeeperRoutes(r, q, p);
    }
    DeeperRoutes(r, r, p);
    RouteReached(settings, host, secure, r.path + p, r, l);
    StripsPrefix(settings, host, secure, r, r.path + p);
    assert (r.path + p)[|r.path|..] == p;
  }

  lemma NotDelivered(settings: Settings, host: Host, secure: bool, r: Route, p: string, l: Location)
    requires ValidHost(host) && r in host.routes && r.rewrite.Some? && RootRelative(p)
    requires Taken(host, r, r.path + p) && Chosen(HostLocations(settings, host, secure), r.path + p, l)
    ensures !Delivers(host, r, l, r.path + p, p)
  {
    hide HostLocations, ValidHost, Chosen;
    RewritingRoute(host, r);
    NeverChallenge(host, r.path, p);
    var q :| q in host.routes && r.path + "/" <= q.path && Serves(q, r.path + p);
    var best := BestExists(host.routes, r.path + p, q);
    assert best != r;
    RouteReached(settings, host, secure, r.path + p, best, l);
  }

  /** A case of it: route `/api` redirects to `/login?next=1`, which the deeper route `/api/login` takes. */
  lemma DeeperRouteTakes(host: Host, r: Route, q: Route)
    requires host.routes == [r, q] && r.path == "/api" && q.path == "/api/login"
    ensures ValidPrefix(r.path) && Redirect(r.path, host.domain, {}, "/login?next=1") == "/api/login?next=1"
    ensures PathOf("/api/login?next=1") == "/api/login" && Taken(host, r, "/api/login")
  {
    hide Redirect, PathEnd, ValidPath;
    var w := "/api/login?next=1";
    RewrittenOnce(r.path, "/login?next=1");
    assert r.path + "/login?next=1" == w;
    assert w[10] == '?';
    PathEndsAt(w, 10);
    assert w[..10] == "/api/login";
    assert q in host.routes;
  }

  lemma RewrittenOnce(prefix: string, v: string)
    requires prefix == "/api" && v == "/login?next=1"
    ensures ValidPrefix(prefix) && forall domain :: Redirect(prefix, domain, {}, v) == prefix + v
  {
    assert prefix[1..] == "api" && v[1..] == "login?next=1";
    assert v[1] == 'l' && prefix[1..][0] == 'a';
    assert !("api" <= "login?next=1") by {
      assert "login?next=1"[0] == 'l';
    }
    hide Known, FirstSlash;
  }

  lemma RedirectTo(prefix: string, domain: string, upstreams: set<string>, v: string)
    requires ValidPrefix(prefix) && RootRelative(v)
    ensures Redirect(prefix, domain, upstreams, v) in {v, prefix + v}
  {
  }

  lemma RoutePathValid(host: Host, r: Route)
    requires ValidHost(host) && r in host.routes
    ensures ValidPath(r.path)
  {
    assert ValidRoute(r);
  }

  lemma RewritingRoute(host: Host, r: Route)
    requires ValidHost(host) && r in host.routes && r.rewrite.Some?
    ensures ValidPrefix(r.path) && r.options.strip
  {
    assert ValidRoute(r);
  }

  // ---- Cookies ----

  /** Section 5.1.4 of RFC 6265: a cookie's path covers a request path. */
  predicate Covers(cookie: string, path: string) {
    || cookie == path
    || (cookie <= path && cookie != "" && (cookie[|cookie| - 1] == '/' || path[|cookie|] == '/'))
  }

  /** A rewritten cookie covers the public form of a path exactly if the cookie the application set covers the path. */
  lemma CookieScope(prefix: string, v: string, path: string)
    requires ValidPrefix(prefix) && RootRelative(v) && RootRelative(path) && !CookieProtected(prefix[1..], v[1..])
    ensures Covers(CookiePath(prefix, v), prefix + path) <==> Covers(v, path)
  {
    var c, w := prefix + v, prefix + path;
    if v <= path {
      assert w[..|c|] == c;
      assert |v| < |path| ==> w[|c|] == path[|v|];
    }
    if c <= w {
      assert w[|prefix|..|c|] == path[..|v|];
      assert c[|prefix|..] == v;
    }
    if c == w {
      assert c[|prefix|..] == v && w[|prefix|..] == path;
    }
    assert c[|c| - 1] == v[|v| - 1];
  }
}
