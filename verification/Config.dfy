/** The structured configuration and the clauses `validate` checks on it. */
module Config {
  import opened Text

  /** What the tunnel hub's JSON key names: an agent, one of its containers and a container port. */
  datatype Key = Key(agent: string, container: string, port: int)

  /** An upstream address. The placeholder of an unreserved tunnel target is derived
      injectively from its key, so it is modelled by the key itself. */
  datatype Address = Plain(text: string) | Pending(key: Key)

  /** Loopback ports by what they tunnel to. */
  type Ports = map<Key, int>

  datatype AgentRef = AgentRef(id: string, container: string, port: int)

  datatype Target = Target(address: Address, port: int, weight: int, backup: bool, agent: Option<AgentRef>)

  datatype Balance = RoundRobin | LeastConn | IpHash

  datatype Options = Options(strip: bool, balance: Balance, cache: bool, cacheTtl: int, websocket: bool,
                             timeout: int, bodyMb: int, rateRps: int, rateBurst: int)

  datatype Source = Source(name: string, members: seq<Target>)

  /** `sources` is a dictionary in insertion order; it is absent in the compact form. */
  datatype Docker = Docker(managed: bool, group: string, targets: seq<Target>, sources: Option<seq<Source>>)

  datatype Rule = Rule(search: string, replace: string)

  /** Generated identities are injective digests of what they identify. */
  datatype Id = Given(text: string) | DockerHost(domain: string) | DockerRoute(host: string, path: string)

  datatype Route = Route(id: Id, name: string, path: string, options: Options, targets: seq<Target>,
                         docker: Option<Docker>, rewrite: Option<seq<Rule>>)

  datatype Tls = Tls(enabled: bool)

  datatype Host = Host(id: Id, domain: string, enabled: bool, tls: Option<Tls>, routes: seq<Route>)

  datatype Settings = Settings(rateRps: int, rateBurst: int)

  datatype Configuration = Configuration(settings: Settings, hosts: seq<Host>)

  const LOOPBACK := "127.0.0.1"
  const LOCAL := "local"

  function Discovered(route: Route): seq<Target> {
    if route.docker.Some? then route.docker.value.targets else []
  }

  function RouteTargets(route: Route): seq<Target> {
    route.targets + Discovered(route)
  }

  predicate ValidId(id: Id) {
    id.Given? ==> 1 <= |id.text| <= 64 && forall i :: 0 <= i < |id.text| ==> IdChar(id.text[i])
  }

  /** `/(?:[a-zA-Z0-9_-]+(?:/[a-zA-Z0-9_-]+)*)?` of at most 200 characters */
  predicate ValidPath(path: string) {
    && 1 <= |path| <= 200 && path[0] == '/'
    && (forall i :: 1 <= i < |path| ==> IdChar(path[i]) || path[i] == '/')
    && (forall i :: 1 <= i < |path| ==> path[i] == '/' ==> path[i - 1] != '/')
    && (path != "/" ==> path[|path| - 1] != '/')
  }

  predicate ValidOptions(o: Options) {
    && 1 <= o.cacheTtl <= 604800 && 1 <= o.timeout <= 3600 && 0 <= o.bodyMb <= 102400
    && 0 <= o.rateRps <= 100000 && 0 <= o.rateBurst <= 100000
  }

  predicate ValidTarget(t: Target, balance: Balance) {
    && 1 <= t.port <= 65535 && 1 <= t.weight <= 1000
    && (t.backup ==> balance != IpHash)
    && (t.agent.Some? ==>
          && Hex32(t.agent.value.id) && t.address == Plain(LOOPBACK)
          && 1 <= t.agent.value.port <= 65535)
  }

  predicate ValidSourceName(name: string) {
    name == LOCAL || (|name| == 38 && name[..6] == "agent_" && Hex32(name[6..]))
  }

  predicate DistinctNames(sources: seq<Source>) {
    forall i, j :: 0 <= i < j < |sources| ==> sources[i].name != sources[j].name
  }

  /** Every recorded member is a discovered target. */
  predicate MembersDiscovered(sources: seq<Source>, targets: seq<Target>) {
    forall i :: 0 <= i < |sources| ==> forall t :: t in sources[i].members ==> t in targets
  }

  /** Every discovered target is recorded under some source. */
  predicate Covered(sources: seq<Source>, targets: seq<Target>) {
    forall t :: t in targets ==> exists i :: 0 <= i < |sources| && t in sources[i].members
  }

  predicate ValidSources(sources: seq<Source>, targets: seq<Target>) {
    && |sources| <= 33
    && DistinctNames(sources)
    && (forall i :: 0 <= i < |sources| ==> ValidSourceName(sources[i].name) && |sources[i].members| <= 32)
    && MembersDiscovered(sources, targets)
    && Covered(sources, targets)
  }

  predicate ValidDocker(d: Docker, manual: seq<Target>) {
    && |d.group| <= 64 && (forall i :: 0 <= i < |d.group| ==> IdChar(d.group[i]))
    && (if d.managed then d.group == "" && manual == [] else d.group != "")
    && |d.targets| <= 32
    && (d.sources.Some? ==> ValidSources(d.sources.value, d.targets))
  }

  /** A single line of at most 1024 characters without dollar signs */
  predicate ValidText(s: string) {
    |s| <= 1024 && forall i :: 0 <= i < |s| ==> s[i] != '$' && s[i] >= ' '
  }

  predicate ValidRules(rules: seq<Rule>) {
    && |rules| <= 16
    && (forall i :: 0 <= i < |rules| ==> rules[i].search != "" && ValidText(rules[i].search) && ValidText(rules[i].replace))
    && (forall i, j :: 0 <= i < j < |rules| ==> Lower(rules[i].search) != Lower(rules[j].search))
  }

  predicate ValidRoute(r: Route) {
    && ValidId(r.id) && 1 <= |r.name| <= 80 && ValidPath(r.path)
    && (r.rewrite.Some? ==> r.path != "/" && r.options.strip && ValidRules(r.rewrite.value))
    && ValidOptions(r.options)
    && (r.docker.Some? ==> ValidDocker(r.docker.value, r.targets))
    && (r.docker.None? ==> r.targets != [] && exists t :: t in r.targets && !t.backup)
    && |RouteTargets(r)| <= 32
    && (forall t :: t in RouteTargets(r) ==> ValidTarget(t, r.options.balance))
  }

  predicate DistinctPaths(routes: seq<Route>) {
    forall i, j :: 0 <= i < j < |routes| ==> routes[i].path != routes[j].path
  }

  predicate DistinctDomains(hosts: seq<Host>) {
    forall i, j :: 0 <= i < j < |hosts| ==> Lower(hosts[i].domain) != Lower(hosts[j].domain)
  }

  predicate ValidHost(h: Host) {
    && ValidId(h.id) && |h.routes| <= 50
    && DistinctPaths(h.routes)
    && forall i :: 0 <= i < |h.routes| ==> ValidRoute(h.routes[i])
  }

  predicate DistinctIds(hosts: seq<Host>) {
    && (forall i, j :: 0 <= i < j < |hosts| ==> hosts[i].id != hosts[j].id)
    && (forall i, j, q :: 0 <= i < |hosts| && 0 <= j < |hosts| && 0 <= q < |hosts[j].routes| ==>
          hosts[i].id != hosts[j].routes[q].id)
    && (forall i, q, j, w :: 0 <= i < |hosts| && 0 <= q < |hosts[i].routes| && 0 <= j < |hosts| && 0 <= w < |hosts[j].routes| ==>
          hosts[i].routes[q].id == hosts[j].routes[w].id ==> i == j && q == w)
  }

  predicate Valid(c: Configuration) {
    && 0 <= c.settings.rateRps <= 100000 && 0 <= c.settings.rateBurst <= 100000
    && |c.hosts| <= 100
    && DistinctDomains(c.hosts)
    && DistinctIds(c.hosts)
    && forall i :: 0 <= i < |c.hosts| ==> ValidHost(c.hosts[i])
  }
}
