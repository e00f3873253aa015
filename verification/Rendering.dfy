/** `render`: the zones, upstreams and servers of a configuration, and that all that is named is declared once. */
module Rendering {
  import opened Text
  import opened Config
  import opened Locations

  datatype Server = Server(name: string, locations: seq<Location>)

  datatype File = File(zones: seq<Zone>, upstreams: seq<Name>, servers: seq<Server>)

  function RouteUpstreams(host: Host, routes: seq<Route>): seq<Name> {
    if routes == [] then []
    else
      var last := routes[|routes| - 1];
      RouteUpstreams(host, routes[..|routes| - 1]) + if RouteTargets(last) != [] then [Up(host.id, last)] else []
  }

  function RouteZones(host: Host, routes: seq<Route>): seq<Zone> {
    if routes == [] then []
    else
      var last := routes[|routes| - 1];
      RouteZones(host, routes[..|routes| - 1])
      + if RouteTargets(last) != [] && last.options.rateRps != 0 then [RouteRate(Up(host.id, last))] else []
  }

  function Upstreams(hosts: seq<Host>): seq<Name> {
    if hosts == [] then []
    else
      var last := hosts[|hosts| - 1];
      Upstreams(hosts[..|hosts| - 1]) + if last.enabled then RouteUpstreams(last, last.routes) else []
  }

  function Zones(hosts: seq<Host>): seq<Zone> {
    if hosts == [] then []
    else
      var last := hosts[|hosts| - 1];
      Zones(hosts[..|hosts| - 1]) + if last.enabled then RouteZones(last, last.routes) else []
  }

  function Servers(settings: Settings, hosts: seq<Host>, secured: set<Id>): seq<Server> {
    if hosts == [] then []
    else
      var last := hosts[|hosts| - 1];
      Servers(settings, hosts[..|hosts| - 1], secured)
      + if last.enabled then [Server(Lower(last.domain), HostLocations(settings, last, last.id in secured))] else []
  }

  /** `render`. `secured` are the hosts with a certificate that redirect plain HTTP. */
  method Render(c: Configuration, secured: set<Id>) returns (f: File)
    ensures f.servers == Servers(c.settings, c.hosts, secured)
    ensures f.upstreams == Upstreams(c.hosts)
    ensures f.zones == (if c.settings.rateRps != 0 then [GlobalRate(c.settings.rateRps)] else []) + Zones(c.hosts)
  {
    hide HostLocations, RouteUpstreams, RouteZones, Servers, Upstreams, Zones, Lower;
    var zones := if c.settings.rateRps != 0 then [GlobalRate(c.settings.rateRps)] else [];
    ghost var start, declared := zones, [];
    var upstreams: seq<Name>, servers: seq<Server> := [], [];
    NoHosts(c.settings, secured);
    for i := 0 to |c.hosts|
      invariant servers == Servers(c.settings, c.hosts[..i], secured)
      invariant upstreams == Upstreams(c.hosts[..i])
      invariant zones == start + declared && declared == Zones(c.hosts[..i])
    {
      NextHost(c.settings, c.hosts, secured, i);
      var host := c.hosts[i];
      if host.enabled {
        var u, z := DeclareRoutes(host);
        var l := CompileHost(c.settings, host, host.id in secured);
        declared := declared + z;
        upstreams, zones, servers := upstreams + u, zones + z, servers + [Server(Lower(host.domain), l)];
      }
    }
    assert c.hosts[..|c.hosts|] == c.hosts;
    f := File(zones, upstreams, servers);
  }

  lemma NoHosts(settings: Settings, secured: set<Id>)
    ensures Servers(settings, [], secured) == [] && Upstreams([]) == [] && Zones([]) == []
  {
  }

  lemma NextHost(settings: Settings, hosts: seq<Host>, secured: set<Id>, i: nat)
    requires i < |hosts|
    ensures var h := hosts[i];
            && Servers(settings, hosts[..i + 1], secured)
               == (if h.enabled then Servers(settings, hosts[..i], secured) + [Server(Lower(h.domain), HostLocations(settings, h, h.id in secured))]
                   else Servers(settings, hosts[..i], secured))
            && Upstreams(hosts[..i + 1]) == (if h.enabled then Upstreams(hosts[..i]) + RouteUpstreams(h, h.routes) else Upstreams(hosts[..i]))
            && Zones(hosts[..i + 1]) == (if h.enabled then Zones(hosts[..i]) + RouteZones(h, h.routes) else Zones(hosts[..i]))
  {
    hide HostLocations, RouteUpstreams, RouteZones, Lower;
    assert hosts[..i + 1][..i] == hosts[..i];
    assert Servers(settings, hosts[..i], secured) + [] == Servers(settings, hosts[..i], secured);
    assert Upstreams(hosts[..i]) + [] == Upstreams(hosts[..i]);
    assert Zones(hosts[..i]) + [] == Zones(hosts[..i]);
  }

  /** The upstreams and rate zones of a host's routes; routes without targets declare none. */
  method DeclareRoutes(host: Host) returns (upstreams: seq<Name>, zones: seq<Zone>)
    ensures upstreams == RouteUpstreams(host, host.routes) && zones == RouteZones(host, host.routes)
  {
    upstreams, zones := [], [];
    for i := 0 to |host.routes|
      invariant upstreams == RouteUpstreams(host, host.routes[..i]) && zones == RouteZones(host, host.routes[..i])
    {
      assert host.routes[..i + 1][..i] == host.routes[..i];
      var r := host.routes[i];
      if RouteTargets(r) == [] {
        continue;
      }
      if r.options.rateRps != 0 {
        zones := zones + [RouteRate(Up(host.id, r))];
      }
      upstreams := upstreams + [Up(host.id, r)];
    }
    assert host.routes[..|host.routes|] == host.routes;
  }

  /** One location of a route: the slash is added before anything else, a route without targets is unavailable. */
  method CompileLocation(settings: Settings, host: Host, secure: bool, r: Route, m: Match) returns (l: Location)
    ensures l == Location(m, secure, ActionOf(settings, host, r, m.Exact?))
  {
    if r.rewrite.Some? && m.Exact? {
      return Location(m, secure, AddSlash(r.path + "/"));
    }
    if RouteTargets(r) == [] {
      return Location(m, secure, Unavailable);
    }
    var zones: seq<Zone> := [];
    if settings.rateRps != 0 {
      zones := zones + [GlobalRate(settings.rateRps)];
    }
    if r.options.rateRps != 0 {
      zones := zones + [RouteRate(Up(host.id, r))];
    }
    assert zones == RateZones(settings, host, r);
    l := Location(m, secure, Proxy(Up(host.id, r), r.options.strip && r.path != "/", zones));
  }

  /** A root route has one location, any other an exact and a prefix one. */
  method CompileRoute(settings: Settings, host: Host, secure: bool, r: Route) returns (locations: seq<Location>)
    ensures locations == RouteLocations(settings, host, secure, r)
  {
    hide ActionOf;
    var matches := if r.path == "/" then [Prefix("/")] else [Exact(r.path), Prefix(r.path + "/")];
    ghost var all := RouteLocations(settings, host, secure, r);
    locations := [];
    for j := 0 to |matches|
      invariant locations == all[..j]
    {
      var l := CompileLocation(settings, host, secure, r, matches[j]);
      assert all[..j + 1] == all[..j] + [l];
      locations := locations + [l];
    }
    assert all[..|matches|] == all;
  }

  /** The location table of a host, line by line. */
  method CompileHost(settings: Settings, host: Host, secure: bool) returns (locations: seq<Location>)
    ensures locations == HostLocations(settings, host, secure)
  {
    hide RoutesLocations, HasRoot;
    locations := [];
    if host.tls.Some? && host.tls.value.enabled {
      locations := locations + [Location(Prefix(ACME), false, Challenge)];
    }
    var l, root := CompileRoutes(settings, host, secure);
    locations := locations + l;
    if !root {
      locations := locations + [Location(Prefix("/"), secure, Missing)];
    }
  }

  /** The locations of all routes, and whether one of them is the root. */
  method CompileRoutes(settings: Settings, host: Host, secure: bool) returns (locations: seq<Location>, root: bool)
    ensures locations == RoutesLocations(settings, host, secure, host.routes)
    ensures root == HasRoot(host.routes)
  {
    hide RouteLocations;
    locations, root := [], false;
    for i := 0 to |host.routes|
      invariant locations == RoutesLocations(settings, host, secure, host.routes[..i])
      invariant root == exists k :: 0 <= k < i && host.routes[k].path == "/"
    {
      assert host.routes[..i + 1][..i] == host.routes[..i];
      var l := CompileRoute(settings, host, secure, host.routes[i]);
      root, locations := root || host.routes[i].path == "/", locations + l;
    }
    assert host.routes[..|host.routes|] == host.routes;
  }

  // ---- Everything named is declared, once ----

  predicate Unique<T(==)>(s: seq<T>) {
    forall i, j :: 0 <= i < j < |s| ==> s[i] != s[j]
  }

  lemma {:induction false} RouteUpstreamOrigin(host: Host, routes: seq<Route>, u: Name)
    ensures u in RouteUpstreams(host, routes) <==> u.host == host.id && u.route in routes && RouteTargets(u.route) != []
  {
    if routes != [] {
      RouteUpstreamOrigin(host, routes[..|routes| - 1], u);
      assert routes == routes[..|routes| - 1] + [routes[|routes| - 1]];
    }
  }

  lemma {:induction false} RouteZoneOrigin(host: Host, routes: seq<Route>, z: Zone)
    ensures z in RouteZones(host, routes) <==>
            z.RouteRate? && z.upstream.host == host.id && z.upstream.route in routes && RouteTargets(z.upstream.route) != []
            && z.upstream.route.options.rateRps != 0
  {
    if routes != [] {
      RouteZoneOrigin(host, routes[..|routes| - 1], z);
      assert routes == routes[..|routes| - 1] + [routes[|routes| - 1]];
    }
  }

  lemma {:induction false} RouteNamesUnique(host: Host, routes: seq<Route>)
    requires Unique(routes)
    ensures Unique(RouteUpstreams(host, routes)) && Unique(RouteZones(host, routes))
  {
    if routes != [] {
      var last := |routes| - 1;
      RouteNamesUnique(host, routes[..last]);
      RouteUpstreamOrigin(host, routes[..last], Up(host.id, routes[last]));
      RouteZoneOrigin(host, routes[..last], RouteRate(Up(host.id, routes[last])));
      assert routes[last] !in routes[..last];
    }
  }

  predicate DeclaresUpstream(h: Host, u: Name) {
    h.enabled && u in RouteUpstreams(h, h.routes)
  }

  predicate DeclaresZone(h: Host, z: Zone) {
    h.enabled && z in RouteZones(h, h.routes)
  }

  /** The upstreams and zones of the file are exactly those that its enabled hosts declare. */
  lemma {:induction false} UpstreamOwner(hosts: seq<Host>, x: Name) returns (i: nat)
    requires x in Upstreams(hosts)
    ensures i < |hosts| && DeclaresUpstream(hosts[i], x)
  {
    var last := |hosts| - 1;
    if x in Upstreams(hosts[..last]) {
      i := UpstreamOwner(hosts[..last], x);
    } else {
      i := last;
    }
  }

  lemma {:induction false} UpstreamListed(hosts: seq<Host>, i: nat, x: Name)
    requires i < |hosts| && DeclaresUpstream(hosts[i], x)
    ensures x in Upstreams(hosts)
  {
    var last := |hosts| - 1;
    if i < last {
      UpstreamListed(hosts[..last], i, x);
    }
  }

  lemma {:induction false} ZoneOwner(hosts: seq<Host>, x: Zone) returns (i: nat)
    requires x in Zones(hosts)
    ensures i < |hosts| && DeclaresZone(hosts[i], x)
  {
    var last := |hosts| - 1;
    if x in Zones(hosts[..last]) {
      i := ZoneOwner(hosts[..last], x);
    } else {
      i := last;
    }
  }

  lemma {:induction false} ZoneListed(hosts: seq<Host>, i: nat, x: Zone)
    requires i < |hosts| && DeclaresZone(hosts[i], x)
    ensures x in Zones(hosts)
  {
    var last := |hosts| - 1;
    if i < last {
      ZoneListed(hosts[..last], i, x);
    }
  }

  lemma {:induction false} ZonesAreRates(hosts: seq<Host>, z: Zone)
    requires z in Zones(hosts)
    ensures z.RouteRate?
  {
    var last := |hosts| - 1;
    if z in Zones(hosts[..last]) {
      ZonesAreRates(hosts[..last], z);
    } else {
      RouteZoneOrigin(hosts[last], hosts[last].routes, z);
    }
  }

  lemma {:induction false} NamesUnique(hosts: seq<Host>)
    requires DistinctIds(hosts) && forall i :: 0 <= i < |hosts| ==> Unique(hosts[i].routes)
    ensures Unique(Upstreams(hosts)) && Unique(Zones(hosts))
  {
    if hosts != [] {
      var last := |hosts| - 1;
      var rest, h := hosts[..last], hosts[last];
      assert DistinctIds(rest);
      NamesUnique(rest);
      RouteNamesUnique(h, h.routes);
      forall u | u in Upstreams(rest) ensures u !in RouteUpstreams(h, h.routes) {
        var i := UpstreamOwner(rest, u);
        RouteUpstreamOrigin(rest[i], rest[i].routes, u);
        RouteUpstreamOrigin(h, h.routes, u);
      }
      forall z | z in Zones(rest) ensures z !in RouteZones(h, h.routes) {
        var i := ZoneOwner(rest, z);
        RouteZoneOrigin(rest[i], rest[i].routes, z);
        RouteZoneOrigin(h, h.routes, z);
      }
      JoinUnique(Upstreams(rest), if h.enabled then RouteUpstreams(h, h.routes) else []);
      JoinUnique(Zones(rest), if h.enabled then RouteZones(h, h.routes) else []);
    }
  }

  lemma JoinUnique<T>(a: seq<T>, b: seq<T>)
    requires Unique(a) && Unique(b) && forall x :: x in a ==> x !in b
    ensures Unique(a + b)
  {
    var s := a + b;
    forall i, j | 0 <= i < j < |s| ensures s[i] != s[j] {
      if i < |a| <= j {
        assert s[i] in a && s[j] in b;
      }
    }
  }

  /** No upstream and no zone is declared twice, and every upstream and zone that a location of an enabled host
      names is declared; the global zone exists only while a global rate is set. */
  lemma Declared(c: Configuration, i: nat, secure: bool, l: Location)
    requires Valid(c) && i < |c.hosts| && c.hosts[i].enabled
    requires l in HostLocations(c.settings, c.hosts[i], secure) && l.action.Proxy?
    ensures var zones := (if c.settings.rateRps != 0 then [GlobalRate(c.settings.rateRps)] else []) + Zones(c.hosts);
            && Unique(Upstreams(c.hosts)) && Unique(zones)
            && l.action.upstream in Upstreams(c.hosts)
            && forall z :: z in l.action.zones ==> z in zones
  {
    hide RoutesLocations, ValidRoute, Zones, Upstreams, Unique;
    AllUnique(c);
    NamedDeclared(c, i, secure, l);
  }

  lemma AllUnique(c: Configuration)
    requires Valid(c)
    ensures Unique(Upstreams(c.hosts))
    ensures Unique((if c.settings.rateRps != 0 then [GlobalRate(c.settings.rateRps)] else []) + Zones(c.hosts))
  {
    hide ValidRoute, Zones, Upstreams;
    forall j | 0 <= j < |c.hosts| ensures Unique(c.hosts[j].routes) {
      assert ValidHost(c.hosts[j]);
    }
    NamesUnique(c.hosts);
    forall z | z in Zones(c.hosts) ensures z != GlobalRate(c.settings.rateRps) {
      ZonesAreRates(c.hosts, z);
    }
    JoinUnique(if c.settings.rateRps != 0 then [GlobalRate(c.settings.rateRps)] else [], Zones(c.hosts));
  }

  lemma NamedDeclared(c: Configuration, i: nat, secure: bool, l: Location)
    requires i < |c.hosts| && c.hosts[i].enabled
    requires l in HostLocations(c.settings, c.hosts[i], secure) && l.action.Proxy?
    ensures l.action.upstream in Upstreams(c.hosts)
    ensures forall z :: z in l.action.zones ==>
              z in (if c.settings.rateRps != 0 then [GlobalRate(c.settings.rateRps)] else []) + Zones(c.hosts)
  {
    hide RoutesLocations, Zones, Upstreams, RouteUpstreams, RouteZones;
    var host := c.hosts[i];
    var at := HostOrigin(c.settings, host, secure, l);
    var u := Up(host.id, host.routes[at]);
    RouteUpstreamOrigin(host, host.routes, u);
    RouteZoneOrigin(host, host.routes, RouteRate(u));
    UpstreamListed(c.hosts, i, u);
    if host.routes[at].options.rateRps != 0 {
      ZoneListed(c.hosts, i, RouteRate(u));
    }
  }

  /** Enabled hosts have distinct server names, so a request reaches the one host it names. */
  lemma {:induction false} ServerNamesUnique(settings: Settings, hosts: seq<Host>, secured: set<Id>)
    requires DistinctDomains(hosts)
    ensures forall i, j :: 0 <= i < j < |Servers(settings, hosts, secured)| ==>
              Servers(settings, hosts, secured)[i].name != Servers(settings, hosts, secured)[j].name
  {
    if hosts != [] {
      var last := |hosts| - 1;
      ServerNamesUnique(settings, hosts[..last], secured);
      forall s | s in Servers(settings, hosts[..last], secured) ensures s.name != Lower(hosts[last].domain) {
        var i := ServerOrigin(settings, hosts[..last], secured, s);
      }
    }
  }

  lemma {:induction false} ServerOrigin(settings: Settings, hosts: seq<Host>, secured: set<Id>, s: Server) returns (i: nat)
    requires s in Servers(settings, hosts, secured)
    ensures i < |hosts| && hosts[i].enabled && s == Server(Lower(hosts[i].domain), HostLocations(settings, hosts[i], hosts[i].id in secured))
  {
    var last := |hosts| - 1;
    if s in Servers(settings, hosts[..last], secured) {
      i := ServerOrigin(settings, hosts[..last], secured, s);
    } else {
      i := last;
    }
  }

  /** The servers, upstreams and zones of the file, written out. */
  lemma {:induction false} ServersExactly(settings: Settings, hosts: seq<Host>, secured: set<Id>, s: Server)
    ensures s in Servers(settings, hosts, secured) <==>
            exists h :: h in hosts && h.enabled && s == Server(Lower(h.domain), HostLocations(settings, h, h.id in secured))
  {
    hide HostLocations, Lower;
    if hosts != [] {
      var last := |hosts| - 1;
      assert hosts == hosts[..last] + [hosts[last]];
      ServersExactly(settings, hosts[..last], secured, s);
    }
  }

  lemma UpstreamsExactly(hosts: seq<Host>, u: Name)
    ensures u in Upstreams(hosts) <==>
            exists h :: h in hosts && h.enabled && u.host == h.id && u.route in h.routes
                        && !(u.route.targets == [] && (u.route.docker.None? || u.route.docker.value.targets == []))
  {
    hide Upstreams, RouteUpstreams;
    if u in Upstreams(hosts) {
      var i := UpstreamOwner(hosts, u);
      RouteUpstreamOrigin(hosts[i], hosts[i].routes, u);
      assert hosts[i] in hosts;
    }
    if h :| h in hosts && h.enabled && u.host == h.id && u.route in h.routes
            && !(u.route.targets == [] && (u.route.docker.None? || u.route.docker.value.targets == []))
    {
      var i :| 0 <= i < |hosts| && hosts[i] == h;
      RouteUpstreamOrigin(h, h.routes, u);
      UpstreamListed(hosts, i, u);
    }
  }

  lemma ZonesExactly(hosts: seq<Host>, z: Zone)
    ensures z in Zones(hosts) <==>
            z.RouteRate? && z.upstream in Upstreams(hosts) && z.upstream.route.options.rateRps != 0
  {
    hide Upstreams, RouteUpstreams, Zones, RouteZones;
    if z in Zones(hosts) {
      var i := ZoneOwner(hosts, z);
      RouteZoneOrigin(hosts[i], hosts[i].routes, z);
      RouteUpstreamOrigin(hosts[i], hosts[i].routes, z.upstream);
      UpstreamListed(hosts, i, z.upstream);
    }
    if z.RouteRate? && z.upstream in Upstreams(hosts) && z.upstream.route.options.rateRps != 0 {
      var i := UpstreamOwner(hosts, z.upstream);
      RouteUpstreamOrigin(hosts[i], hosts[i].routes, z.upstream);
      RouteZoneOrigin(hosts[i], hosts[i].routes, z);
      ZoneListed(hosts, i, z);
    }
  }
}
