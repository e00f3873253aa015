/** The compiled route table: the locations of a host, nginx's choice among them, and the paths it passes on. */
module Locations {
  import opened Text
  import opened Config

  /** The name of an upstream is an injective digest of a host's id and a route. */
  datatype Name = Up(host: Id, route: Route)

  datatype Zone = GlobalRate(rps: int) | RouteRate(upstream: Name)

  datatype Match = Exact(path: string) | Prefix(path: string)

  datatype Action = Proxy(upstream: Name, strip: bool, zones: seq<Zone>) | AddSlash(path: string) | Unavailable | Missing | Challenge

  /** `secure`: plain HTTP is first redirected to HTTPS. */
  datatype Location = Location(match_: Match, secure: bool, action: Action)

  const ACME := "/.well-known/acme-challenge/"

  // ---- The locations of a host ----

  function RateZones(settings: Settings, host: Host, r: Route): seq<Zone> {
    (if settings.rateRps != 0 then [GlobalRate(settings.rateRps)] else [])
    + if r.options.rateRps != 0 then [RouteRate(Up(host.id, r))] else []
  }

  function ActionOf(settings: Settings, host: Host, r: Route, exact: bool): Action {
    if r.rewrite.Some? && exact then AddSlash(r.path + "/")
    else if RouteTargets(r) == [] then Unavailable
    else Proxy(Up(host.id, r), r.options.strip && r.path != "/", RateZones(settings, host, r))
  }

  function RouteLocations(settings: Settings, host: Host, secure: bool, r: Route): seq<Location> {
    if r.path == "/" then [Location(Prefix("/"), secure, ActionOf(settings, host, r, false))]
    else [Location(Exact(r.path), secure, ActionOf(settings, host, r, true)),
          Location(Prefix(r.path + "/"), secure, ActionOf(settings, host, r, false))]
  }

  function RoutesLocations(settings: Settings, host: Host, secure: bool, routes: seq<Route>): seq<Location> {
    if routes == [] then []
    else RoutesLocations(settings, host, secure, routes[..|routes| - 1]) + RouteLocations(settings, host, secure, routes[|routes| - 1])
  }

  function Front(host: Host): seq<Location> {
    if host.tls.Some? && host.tls.value.enabled then [Location(Prefix(ACME), false, Challenge)] else []
  }

  predicate HasRoot(routes: seq<Route>) {
    exists i :: 0 <= i < |routes| && routes[i].path == "/"
  }

  function Back(host: Host, secure: bool): seq<Location> {
    if HasRoot(host.routes) then [] else [Location(Prefix("/"), secure, Missing)]
  }

  function HostLocations(settings: Settings, host: Host, secure: bool): seq<Location> {
    Front(host) + RoutesLocations(settings, host, secure, host.routes) + Back(host, secure)
  }

  // ---- nginx's choice among locations ----

  predicate Fits(m: Match, path: string) {
    if m.Exact? then m.path == path else m.path <= path
  }

  /** An exact location wins; otherwise the longest matching prefix. */
  ghost predicate Chosen(locations: seq<Location>, path: string, l: Location) {
    && l in locations && Fits(l.match_, path)
    && (l.match_.Prefix? ==>
          forall k :: k in locations && Fits(k.match_, path) ==> k.match_.Prefix? && |k.match_.path| <= |l.match_.path|)
  }

  predicate DistinctMatches(locations: seq<Location>) {
    forall i, j :: 0 <= i < j < |locations| ==> locations[i].match_ != locations[j].match_
  }

  // ---- The simple rule ----

  /** A route serves its own path and everything below it, segment by segment. */
  predicate Serves(r: Route, path: string) {
    r.path == "/" || path == r.path || r.path + "/" <= path
  }

  /** The route with the longest path among those that serve the request. */
  ghost predicate Best(routes: seq<Route>, path: string, r: Route) {
    && r in routes && Serves(r, path)
    && forall q :: q in routes && Serves(q, path) ==> |q.path| <= |r.path|
  }

  function IsChallenge(host: Host, path: string): bool {
    host.tls.Some? && host.tls.value.enabled && ACME <= path
  }

  // ---- Facts about the table ----

  lemma {:induction false} LocationOrigin(settings: Settings, host: Host, secure: bool, routes: seq<Route>, l: Location) returns (i: nat)
    requires l in RoutesLocations(settings, host, secure, routes)
    ensures i < |routes| && l in RouteLocations(settings, host, secure, routes[i])
  {
    var last := |routes| - 1;
    if l in RoutesLocations(settings, host, secure, routes[..last]) {
      i := LocationOrigin(settings, host, secure, routes[..last], l);
    } else {
      i := last;
    }
  }

  lemma {:induction false} LocationListed(settings: Settings, host: Host, secure: bool, routes: seq<Route>, i: nat, l: Location)
    requires i < |routes| && l in RouteLocations(settings, host, secure, routes[i])
    ensures l in RoutesLocations(settings, host, secure, routes)
  {
    var last := |routes| - 1;
    if i < last {
      LocationListed(settings, host, secure, routes[..last], i, l);
    }
  }

  /** What a route's location matches tells the route's path. */
  predicate MatchOf(m: Match, path: string) {
    if path == "/" then m == Prefix("/") else m == Exact(path) || m == Prefix(path + "/")
  }

  lemma MatchTells(m: Match, p: string, q: string)
    requires ValidPath(p) && ValidPath(q) && MatchOf(m, p) && MatchOf(m, q)
    ensures p == q
  {
    if m.Prefix? && p != "/" && q != "/" {
      assert p == m.path[..|m.path| - 1] && q == m.path[..|m.path| - 1];
    }
  }

  /** A route's location is apart from those of routes with other paths. */
  lemma RouteApart(settings: Settings, host: Host, secure: bool, routes: seq<Route>, last: Route, l: Location, k: Location)
    requires ValidPath(last.path) && forall i :: 0 <= i < |routes| ==> ValidPath(routes[i].path) && routes[i].path != last.path
    requires l in RoutesLocations(settings, host, secure, routes) && k in RouteLocations(settings, host, secure, last)
    ensures l.match_ != k.match_
  {
    hide RoutesLocations, RouteLocations, MatchOf, ValidPath;
    var i := LocationOrigin(settings, host, secure, routes, l);
    RouteMatch(settings, host, secure, routes[i], l);
    RouteMatch(settings, host, secure, last, k);
    if l.match_ == k.match_ {
      MatchTells(l.match_, routes[i].path, last.path);
    }
  }

  lemma {:induction false} RoutesDistinct(settings: Settings, host: Host, secure: bool, routes: seq<Route>)
    requires DistinctPaths(routes) && forall i :: 0 <= i < |routes| ==> ValidPath(routes[i].path)
    ensures DistinctMatches(RoutesLocations(settings, host, secure, routes))
  {
    hide RouteLocations, ValidPath, DistinctMatches;
    if routes == [] {
      NoneDistinct();
    } else {
      var last := |routes| - 1;
      var a, b := RoutesLocations(settings, host, secure, routes[..last]), RouteLocations(settings, host, secure, routes[last]);
      RoutesDistinct(settings, host, secure, routes[..last]);
      OneRouteDistinct(settings, host, secure, routes[last]);
      forall x, y | 0 <= x < |a| && 0 <= y < |b| ensures a[x].match_ != b[y].match_ {
        RouteApart(settings, host, secure, routes[..last], routes[last], a[x], b[y]);
      }
      JoinDistinct(a, b);
    }
  }

  lemma NoneDistinct()
    ensures DistinctMatches([])
  {
  }

  lemma RouteMatch(settings: Settings, host: Host, secure: bool, r: Route, l: Location)
    requires l in RouteLocations(settings, host, secure, r)
    ensures MatchOf(l.match_, r.path)
  {
  }

  lemma OneRouteDistinct(settings: Settings, host: Host, secure: bool, r: Route)
    ensures DistinctMatches(RouteLocations(settings, host, secure, r))
  {
  }

  lemma JoinDistinct(a: seq<Location>, b: seq<Location>)
    requires DistinctMatches(a) && DistinctMatches(b)
    requires forall x, y :: 0 <= x < |a| && 0 <= y < |b| ==> a[x].match_ != b[y].match_
    ensures DistinctMatches(a + b)
  {
  }

  /** A valid path has no dot, so nothing a route declares comes near the challenge location. */
  lemma NoDot(path: string, i: nat)
    requires ValidPath(path) && i < |path|
    ensures path[i] != '.'
  {
  }

  lemma NotChallenge(m: Match, path: string)
    requires ValidPath(path) && MatchOf(m, path)
    ensures m != Prefix(ACME) && !(|m.path| >= 2 && m.path <= ACME) && !(|m.path| >= 2 && ACME <= m.path)
  {
    assert ACME[1] == '.';
    if |m.path| >= 2 {
      if |path| >= 2 {
        NoDot(path, 1);
        assert m.path[1] != '.';
      }
    }
  }

  /** No two locations of a host match the same thing, which nginx would refuse. */
  lemma HostDistinct(settings: Settings, host: Host, secure: bool)
    requires ValidHost(host)
    ensures DistinctMatches(HostLocations(settings, host, secure))
  {
    hide RouteLocations, RoutesLocations, MatchOf, ValidPath, ValidRoute;
    var mid := RoutesLocations(settings, host, secure, host.routes);
    forall i | 0 <= i < |host.routes| ensures ValidPath(host.routes[i].path) {
      RoutePath(host.routes[i]);
    }
    RoutesDistinct(settings, host, secure, host.routes);
    forall x, y | 0 <= x < |Front(host)| && 0 <= y < |mid| ensures Front(host)[x].match_ != mid[y].match_ {
      var i := LocationOrigin(settings, host, secure, host.routes, mid[y]);
      RouteMatch(settings, host, secure, host.routes[i], mid[y]);
      NotChallenge(mid[y].match_, host.routes[i].path);
    }
    JoinDistinct(Front(host), mid);
    forall x, y | 0 <= x < |Front(host) + mid| && 0 <= y < |Back(host, secure)|
      ensures (Front(host) + mid)[x].match_ != Back(host, secure)[y].match_
    {
      if x >= |Front(host)| {
        var i := LocationOrigin(settings, host, secure, host.routes, mid[x - |Front(host)|]);
        RouteMatch(settings, host, secure, host.routes[i], mid[x - |Front(host)|]);
        NotRoot(mid[x - |Front(host)|].match_, host.routes[i].path);
      }
    }
    JoinDistinct(Front(host) + mid, Back(host, secure));
  }

  lemma RoutePath(r: Route)
    requires ValidRoute(r)
    ensures ValidPath(r.path)
  {
  }

  lemma NotRoot(m: Match, path: string)
    requires ValidPath(path) && path != "/" && MatchOf(m, path)
    ensures m != Prefix("/")
  {
  }

  /** nginx's choice is unique. */
  lemma ChoiceUnique(locations: seq<Location>, path: string, l: Location, k: Location)
    requires DistinctMatches(locations) && Chosen(locations, path, l) && Chosen(locations, path, k)
    ensures l == k
  {
    if l.match_.Prefix? && k.match_.Prefix? {
      assert l.match_.path == path[..|l.match_.path|] && k.match_.path == path[..|k.match_.path|];
    }
    assert l.match_ == k.match_;
    var i, j :| 0 <= i < |locations| && 0 <= j < |locations| && locations[i] == l && locations[j] == k;
    assert !(i < j) && !(j < i);
  }

  /** Every location of a host is one of three kinds. */
  lemma HostOrigin(settings: Settings, host: Host, secure: bool, l: Location) returns (i: nat)
    requires l in HostLocations(settings, host, secure)
    ensures l in Front(host) || l in Back(host, secure) || (i < |host.routes| && l in RouteLocations(settings, host, secure, host.routes[i]))
  {
    if l in RoutesLocations(settings, host, secure, host.routes) {
      i := LocationOrigin(settings, host, secure, host.routes, l);
    } else {
      i := 0;
    }
  }

  /** A route's location fits a request only if the route serves it. */
  lemma FitServes(r: Route, m: Match, path: string)
    requires ValidPath(r.path) && MatchOf(m, r.path) && Fits(m, path)
    ensures Serves(r, path)
  {
  }

  // ---- The theorem ----

  /** The location the simple rule asks for: the challenge, the best route's exact or prefix location, or 404. */
  function RouteLocation(settings: Settings, host: Host, secure: bool, r: Route, path: string): Location {
    if r.path != "/" && path == r.path then Location(Exact(r.path), secure, ActionOf(settings, host, r, true))
    else Location(Prefix(if r.path == "/" then "/" else r.path + "/"), secure, ActionOf(settings, host, r, false))
  }

  /** With TLS on, a challenge request reaches the challenge location, which no route can shadow. */
  lemma ChallengeReached(settings: Settings, host: Host, secure: bool, path: string, l: Location)
    requires ValidHost(host) && IsChallenge(host, path) && Chosen(HostLocations(settings, host, secure), path, l)
    ensures l == Location(Prefix(ACME), false, Challenge)
  {
    hide ValidRoute, RoutesLocations;
    var locations := HostLocations(settings, host, secure);
    var c := Location(Prefix(ACME), false, Challenge);
    assert c == Front(host)[0];
    assert c in locations;
    forall k | k in locations && Fits(k.match_, path) ensures k.match_.Prefix? && |k.match_.path| <= |ACME| {
      OnlyChallengeFits(settings, host, secure, path, k);
    }
    HostDistinct(settings, host, secure);
    ChoiceUnique(locations, path, l, c);
  }

  lemma PrefixOrder(a: string, b: string, path: string)
    requires a <= path && b <= path
    ensures |a| <= |b| ==> a <= b
  {
  }

  lemma OnlyChallengeFits(settings: Settings, host: Host, secure: bool, path: string, k: Location)
    requires ValidHost(host) && ACME <= path && k in HostLocations(settings, host, secure) && Fits(k.match_, path)
    ensures k.match_.Prefix? && |k.match_.path| <= |ACME|
  {
    var i := HostOrigin(settings, host, secure, k);
    if k !in Front(host) && k !in Back(host, secure) {
      NotChallenge(k.match_, host.routes[i].path);
      PrefixOrder(ACME, k.match_.path, path);
    }
  }

  /** Any other request reaches the route with the longest segment prefix, one without targets included. */
  lemma RouteReached(settings: Settings, host: Host, secure: bool, path: string, r: Route, l: Location)
    requires ValidHost(host) && !IsChallenge(host, path) && Best(host.routes, path, r) && path != "" && path[0] == '/'
    requires Chosen(HostLocations(settings, host, secure), path, l)
    ensures l == RouteLocation(settings, host, secure, r, path)
  {
    hide RoutesLocations, ValidRoute, ActionOf;
    var locations := HostLocations(settings, host, secure);
    var c := RouteLocation(settings, host, secure, r, path);
    var i :| 0 <= i < |host.routes| && host.routes[i] == r;
    assert ValidRoute(host.routes[i]);
    LocationListed(settings, host, secure, host.routes, i, c) by {
      assert c in RouteLocations(settings, host, secure, r);
    }
    assert c in locations;
    if c.match_.Prefix? {
      forall k | k in locations && Fits(k.match_, path) ensures k.match_.Prefix? && |k.match_.path| <= |c.match_.path| {
        BestFits(settings, host, secure, path, r, k);
      }
    }
    HostDistinct(settings, host, secure);
    ChoiceUnique(locations, path, l, c);
  }

  /** The same, written out: what the request gets. */
  lemma RouteReachedExactly(settings: Settings, host: Host, secure: bool, path: string, r: Route, l: Location)
    requires ValidHost(host) && path != "" && path[0] == '/'
    requires !(host.tls.Some? && host.tls.value.enabled && "/.well-known/acme-challenge/" <= path)
    requires r in host.routes && (r.path == "/" || path == r.path || r.path + "/" <= path)
    requires forall q :: q in host.routes && (q.path == "/" || path == q.path || q.path + "/" <= path) ==> |q.path| <= |r.path|
    requires Chosen(HostLocations(settings, host, secure), path, l)
    ensures l.secure == secure
    ensures if r.rewrite.Some? && r.path != "/" && path == r.path then l.action == AddSlash(path + "/")
            else if r.targets == [] && (r.docker.None? || r.docker.value.targets == []) then l.action == Unavailable
            else l.action == Proxy(Up(host.id, r), r.options.strip && r.path != "/",
                                   (if settings.rateRps != 0 then [GlobalRate(settings.rateRps)] else [])
                                   + if r.options.rateRps != 0 then [RouteRate(Up(host.id, r))] else [])
  {
    assert Best(host.routes, path, r) by {
      forall q | q in host.routes && Serves(q, path) ensures |q.path| <= |r.path| {}
    }
    hide HostLocations, Chosen, ValidHost;
    RouteReached(settings, host, secure, path, r, l);
  }

  lemma BestFits(settings: Settings, host: Host, secure: bool, path: string, r: Route, k: Location)
    requires ValidHost(host) && !IsChallenge(host, path) && Best(host.routes, path, r)
    requires path != r.path || r.path == "/"
    requires k in HostLocations(settings, host, secure) && Fits(k.match_, path)
    ensures k.match_.Prefix? && |k.match_.path| <= if r.path == "/" then 1 else |r.path| + 1
  {
    hide RoutesLocations, ActionOf;
    var i := HostOrigin(settings, host, secure, k);
    if k !in Front(host) && k !in Back(host, secure) {
      var q := host.routes[i];
      assert ValidRoute(q);
      FitServes(q, k.match_, path);
      assert |q.path| <= |r.path|;
      if k.match_.Exact? && r.path != "/" {
        SamePath(r, path);
      }
    }
  }

  /** A route that serves a path at least as long as the path serves it as its own. */
  lemma SamePath(r: Route, path: string)
    requires Serves(r, path) && r.path != "/" && |path| <= |r.path|
    ensures path == r.path
  {
  }

  /** And a request that no route serves reaches 404. */
  lemma NothingReached(settings: Settings, host: Host, secure: bool, path: string, l: Location)
    requires ValidHost(host) && !IsChallenge(host, path) && path != "" && path[0] == '/'
    requires forall r :: r in host.routes ==> !Serves(r, path)
    requires Chosen(HostLocations(settings, host, secure), path, l)
    ensures l == Location(Prefix("/"), secure, Missing)
  {
    hide RoutesLocations, ActionOf;
    var i := HostOrigin(settings, host, secure, l);
    if l !in Front(host) && l !in Back(host, secure) {
      assert ValidRoute(host.routes[i]);
      FitServes(host.routes[i], l.match_, path);
    }
  }

  /** Some location always matches a request path, so one of the three cases applies. */
  lemma SomethingReached(settings: Settings, host: Host, secure: bool, path: string) returns (l: Location)
    requires ValidHost(host) && path != "" && path[0] == '/'
    ensures Chosen(HostLocations(settings, host, secure), path, l)
  {
    hide RoutesLocations, ActionOf, ValidRoute;
    var locations := HostLocations(settings, host, secure);
    var root: Location;
    if HasRoot(host.routes) {
      var i :| 0 <= i < |host.routes| && host.routes[i].path == "/";
      root := RouteLocations(settings, host, secure, host.routes[i])[0];
      LocationListed(settings, host, secure, host.routes, i, root);
    } else {
      root := Back(host, secure)[0];
    }
    assert root in locations && Fits(root.match_, path);
    l := Pick(locations, path, root);
  }

  /** A longest match exists once anything matches. */
  lemma {:induction false} Pick(locations: seq<Location>, path: string, start: Location) returns (l: Location)
    requires start in locations && Fits(start.match_, path)
    ensures Chosen(locations, path, l)
    decreases if start.match_.Exact? then 0 else 1 + |path| - |start.match_.path|
  {
    if start.match_.Exact? || forall k :: k in locations && Fits(k.match_, path) ==> k.match_.Prefix? && |k.match_.path| <= |start.match_.path| {
      l := start;
    } else {
      var k :| k in locations && Fits(k.match_, path) && !(k.match_.Prefix? && |k.match_.path| <= |start.match_.path|);
      l := Pick(locations, path, k);
    }
  }

  // ---- What the upstream is asked for ----

  /** `proxy_pass` with a URI puts `/` in place of the matched prefix. */
  function Forwarded(l: Location, path: string): string
    requires l.action.Proxy? && |l.match_.path| <= |path|
  {
    if l.action.strip then "/" + path[|l.match_.path|..] else path
  }

  /** Below a route's path, what the application sees of a request: the root for the route's own path. */
  function Application(prefix: string, path: string): string
    requires prefix <= path
  {
    if path == prefix then "/" else path[|prefix|..]
  }

  /** A stripping route hands the application its own path, whichever of its two locations was chosen. */
  lemma StripsPrefix(settings: Settings, host: Host, secure: bool, r: Route, path: string)
    requires ValidPath(r.path) && r.path != "/" && Serves(r, path)
    requires var l := RouteLocation(settings, host, secure, r, path); l.action.Proxy?
    ensures var l := RouteLocation(settings, host, secure, r, path);
            |l.match_.path| <= |path|
            && Forwarded(l, path) == if r.options.strip then Application(r.path, path) else path
  {
    var l := RouteLocation(settings, host, secure, r, path);
    if path != r.path {
      assert l.match_.path == r.path + "/";
      assert path[|r.path|] == '/';
      assert path[|r.path|..] == "/" + path[|r.path| + 1..];
    } else {
      assert path[|path|..] == "";
    }
  }
}
