/** Runs of the transactions in which something is lost or left behind. */
module Scenarios {
  import opened Text
  import opened Config
  import opened Placeholders
  import opened PortTable
  import opened Reservations
  import opened Storage
  import opened Transactions
  import opened Leases
  import opened Registry

  const AGENT := "0123456789abcdef0123456789abcdef"
  const KEY := Key(AGENT, "web", 80)
  const PORT := 20000

  /** A configuration that serves one container through the tunnel, on whatever address. */
  function Serving(address: Address, port: int): Configuration {
    var target := Target(address, port, 1, false, None);
    var docker := Docker(true, "", [target], Some([Source("agent_" + AGENT, [target])]));
    var route := Route(DockerRoute("a.example", "/"), "Docker /", "/", Options(false, RoundRobin, false, 60, false, 60, 0, 0, 0),
                       [], Some(docker), None);
    Configuration(Settings(0, 0), [Host(DockerHost("a.example"), "a.example", true, None, [route])])
  }

  function Empty(): Configuration {
    Configuration(Settings(0, 0), [])
  }

  lemma AgentSource()
    ensures ValidSourceName("agent_" + AGENT)
  {
    var name := "agent_" + AGENT;
    assert name[..6] == "agent_" && name[6..] == AGENT;
    assert Hex32(AGENT);
  }

  lemma ServingValid(port: int)
    requires 1 <= port <= 65535
    ensures Config.Valid(Serving(Plain(LOOPBACK), port))
  {
    AgentSource();
    var c := Serving(Plain(LOOPBACK), port);
    var route := c.hosts[0].routes[0];
    var t := route.docker.value.targets[0];
    assert RouteTargets(route) == [t];
    assert t in route.docker.value.sources.value[0].members;
    assert ValidRoute(route);
    assert ValidHost(c.hosts[0]);
  }

  lemma ServingResolves(ports: Ports)
    requires KEY in ports
    ensures ResolveConfig(Serving(Pending(KEY), 80), ports) == Serving(Plain(LOOPBACK), ports[KEY])
  {
    var c, d := Serving(Pending(KEY), 80), Serving(Plain(LOOPBACK), ports[KEY]);
    var r, q := c.hosts[0].routes[0], d.hosts[0].routes[0];
    assert ResolveAll(Discovered(r), ports) == Discovered(q);
    assert ResolveSources(r.docker.value.sources.value, ports) == q.docker.value.sources.value;
    assert ResolveRoute(r, ports) == q;
    assert ResolveHost(c.hosts[0], ports) == d.hosts[0];
  }

  lemma ServingPending(port: int)
    ensures PendingKeys(Serving(Pending(KEY), port)) == {KEY}
    ensures port in PortsOf(Serving(Plain(LOOPBACK), port))
    ensures PortsOf(Empty()) == {}
  {
    var c, d := Serving(Pending(KEY), port), Serving(Plain(LOOPBACK), port);
    var r, q := c.hosts[0].routes[0], d.hosts[0].routes[0];
    var t, u := Discovered(r)[0], Discovered(q)[0];
    assert RouteTargets(r) == [t] && RouteTargets(q) == [u];
    assert t in RouteTargets(r) && u in RouteTargets(q);
    assert PendingIn(RouteTargets(r)) == {KEY};
    assert PendingOf(r) == {KEY};
    assert port in RoutePorts(q);
  }

  /** Every step of an application succeeds; `mark` is the last write, which records it. */
  function Smooth(mark: Io): Answers {
    Answers(true, Done, Done, Done, true, true, true, Done, true, true, Done, true, true, Whole, true, mark, true, [], [], true, 0)
  }

  lemma SmoothGoesThrough(revisions: map<Name, Revision>, config: Configuration, gen: Name, mark: Io)
    requires Config.Valid(config)
    ensures GoesThrough(revisions, config, gen, Smooth(mark)) <==> mark == Done
    ensures Moves(config, Smooth(mark))
  {
    hide Config.Valid;
    assert History(Extended(revisions, config, gen, Smooth(mark)), gen, []) == [];
  }

  /** What the scenarios start from. */
  lemma Setting(revisions: map<Name, Revision>, gen: Name, mark: Io)
    ensures var candidate, ready := Serving(Pending(KEY), 80), Serving(Plain(LOOPBACK), PORT);
            && PendingKeys(candidate) + PendingKeys(candidate) == {KEY} && ResolveConfig(candidate, map[KEY := PORT]) == ready != Empty()
            && PORT in PortsOf(ready) && Moves(ready, Smooth(mark))
            && (GoesThrough(revisions, ready, gen, Smooth(mark)) <==> mark == Done)
  {
    ServingValid(PORT);
    ServingPending(80);
    ServingPending(PORT);
    ServingResolves(map[KEY := PORT]);
    SmoothGoesThrough(revisions, Serving(Plain(LOOPBACK), PORT), gen, mark);
    assert |Serving(Plain(LOOPBACK), PORT).hosts| == 1;
    hide PendingKeys, ResolveConfig, PortsOf, Moves, GoesThrough, Smooth, Serving;
  }

  lemma EmptyReferences(store: Store)
    requires store.draft == Empty() && store.revisions.Keys == {0} && store.revisions[0].config == Some(Empty())
    ensures store.References() == {}
  {
    ServingPending(0);
  }

  lemma Bindings(ports: Ports)
    requires ports.Keys <= {KEY}
    ensures Bindable(ports, {KEY}, map[KEY := PORT], 128)
    ensures Bindable(map[KEY := PORT], {KEY}, map[], 128)
    ensures OneToOne(map[KEY := PORT]) && OneToOne(map[]) && Chosen(map[KEY := PORT], {KEY}) == map[KEY := PORT] && Chosen(map[], {}) == map[]
  {
    var all := ports.Keys + {KEY};
    assert all == {KEY};
    assert Of(all, AGENT) == {KEY};
    assert ports.Keys == {} || ports.Keys == {KEY};
  }

  /** The rollback's write replaces the file and fails: the mapping stays in memory only. */
  lemma LateRollback(before: Table, reserved: Ports, io: TableIo, verdict: Verdict, after: Table, references: set<int>)
    requires Settled(before, reserved, io, verdict, after, references)
    requires before == Table(map[], map[]) && reserved == map[KEY := PORT] && io == TableIo(Done, true, Late) && verdict == Failed
    requires PORT !in references
    ensures after == Table(map[KEY := PORT], map[])
  {
    var during := Recorded(Table(map[], map[]), map[KEY := PORT], Done);
    assert during == Table(map[KEY := PORT], map[KEY := PORT]);
    assert Orphans(map[KEY := PORT], Some(references)) == {KEY};
    assert during.ports - {KEY} == map[];
  }

  lemma NothingReserved(before: Table, reserved: Ports, io: TableIo, verdict: Verdict, after: Table, references: set<int>)
    requires Settled(before, reserved, io, verdict, after, references)
    requires reserved == map[] && verdict == Applied
    ensures after == before
  {
  }

  method FirstApply(hub: TunnelHub, store: Store)
    requires hub.Valid() && hub.View() == Table(map[], map[]) && hub.quota == 128
    requires store.Valid() && store.draft == store.ActiveConfig() == Empty() && store.revisions.Keys == {0}
    modifies hub, store
    ensures hub.Valid() && hub.View() == Table(map[KEY := PORT], map[])
    ensures store.Valid() && store.draft == store.ActiveConfig() == Empty() && store.revisions.Keys == {0}
  {
    hide Config.Valid, PendingKeys, ResolveConfig, PortsOf, Bindable, Chosen, Settled, OneToOne, Installs, Advances, Serving;
    var candidate := Serving(Pending(KEY), 80);
    Bindings(map[]);
    ServingPending(80);
    var w := Weather(map[KEY := PORT], TableIo(Done, true, Late), false, Done, Smooth(Done), Done);
    var verdict, reserved := ApplyLabels(hub, store, candidate, candidate, {KEY}, 1, w);
    assert PendingKeys(candidate) + PendingKeys(candidate) == {KEY};
    assert verdict != Refused;
    assert PendingKeys(candidate) + PendingKeys(candidate) - old(hub.ports.Keys) == {KEY};
    assert reserved == map[KEY := PORT];
    assert verdict == Failed;
    EmptyReferences(store);
    LateRollback(old(hub.View()), reserved, w.table, verdict, hub.View(), store.References());
  }

  /** A referenced mapping is lost by a restart. A label apply fails when it refreshes the targets, and the rollback
      replaces the file of the port table but fails: the key keeps its port in memory only. The next apply finds the key
      mapped, writes no table, and succeeds on that port. A restart reads a file without it. */
  method MappingLost() returns (hub: TunnelHub, store: Store, reopened: TunnelHub?)
    ensures hub.ports == map[KEY := PORT] && hub.file == map[]
    ensures store.Valid() && store.ActiveConfig() == Serving(Plain(LOOPBACK), PORT) && PORT in store.References()
    ensures reopened != null && reopened.ports == map[]
  {
    hide Config.Valid, PendingKeys, ResolveConfig, PortsOf, Bindable, Chosen, Settled, Attempted;
    hub := new TunnelHub(128, map[], map[]);
    store := new Store(Empty(), 0);
    FirstApply(hub, store);
    SecondApply(hub, store);
    reopened := TunnelHub.Open(hub.file, 128, Some(store.References()), {}, Done, {});
  }

  method SecondApply(hub: TunnelHub, store: Store)
    requires hub.Valid() && hub.View() == Table(map[KEY := PORT], map[]) && hub.quota == 128
    requires store.Valid() && store.draft == store.ActiveConfig() == Empty() && store.revisions.Keys == {0}
    modifies hub, store
    ensures hub.Valid() && hub.View() == Table(map[KEY := PORT], map[])
    ensures store.Valid() && store.ActiveConfig() == Serving(Plain(LOOPBACK), PORT) && PORT in store.References()
  {
    hide Config.Valid, PendingKeys, ResolveConfig, PortsOf, Bindable, Chosen, Settled, OneToOne, Moves, GoesThrough, Serving, Empty;
    var candidate := Serving(Pending(KEY), 80);
    Bindings(map[KEY := PORT]);
    Setting(store.revisions, 2, Done);
    var w := Weather(map[], TableIo(Done, true, Done), true, Done, Smooth(Done), Done);
    var verdict, reserved := ApplyLabels(hub, store, candidate, candidate, {KEY}, 2, w);
    assert verdict != Refused;
    assert PendingKeys(candidate) + PendingKeys(candidate) - old(hub.ports.Keys) == {};
    assert reserved == map[];
    assert old(hub.ports) + reserved == map[KEY := PORT];
    assert verdict == Applied;
    NothingReserved(old(hub.View()), reserved, w.table, verdict, hub.View(), store.References());
  }

  /** A failed apply leaves the active link on the candidate. The reload is confirmed, but recording that it was applied
      fails: the draft is restored, the candidate stays active, and its mapping is kept. */
  method ActiveAhead() returns (hub: TunnelHub, store: Store, verdict: Verdict)
    ensures verdict == Failed
    ensures store.Valid() && store.draft == Empty() && store.ActiveConfig() == Serving(Plain(LOOPBACK), PORT)
    ensures hub.ports == map[KEY := PORT] && Saved(hub.View())
  {
    hide PortsOf, Saved, Serving;
    hub := new TunnelHub(128, map[], map[]);
    store := new Store(Empty(), 0);
    verdict := UnrecordedApply(hub, store);
  }

  method UnrecordedApply(hub: TunnelHub, store: Store) returns (verdict: Verdict)
    requires hub.Valid() && hub.View() == Table(map[], map[]) && hub.quota == 128
    requires store.Valid() && store.draft == store.ActiveConfig() == Empty() && store.revisions.Keys == {0}
    modifies hub, store
    ensures verdict == Failed
    ensures store.Valid() && store.draft == Empty() && store.ActiveConfig() == Serving(Plain(LOOPBACK), PORT)
    ensures hub.ports == map[KEY := PORT] && Saved(hub.View())
  {
    hide Config.Valid, PendingKeys, ResolveConfig, PortsOf, Bindable, Chosen, Settled, OneToOne, Moves, GoesThrough, RevisionPorts, Saved,
      Serving, Empty;
    var candidate := Serving(Pending(KEY), 80);
    Bindings(map[]);
    Setting(store.revisions, 1, Lost);
    var w := Weather(map[KEY := PORT], TableIo(Done, true, Done), true, Done, Smooth(Lost), Done);
    ghost var reserved;
    verdict, reserved := ApplyLabels(hub, store, candidate, candidate, {KEY}, 1, w);
    assert verdict != Refused;
    assert PendingKeys(candidate) + PendingKeys(candidate) - old(hub.ports.Keys) == {KEY};
    assert reserved == map[KEY := PORT];
    assert old(hub.ports) + reserved == map[KEY := PORT];
    assert verdict == Failed;
    ActivePorts(store);
    ReferencedKept(old(hub.View()), reserved, w.table, verdict, hub.View(), store.References());
  }

  lemma ActivePorts(store: Store)
    requires store.Valid()
    ensures PortsOf(store.ActiveConfig()) <= store.References()
  {
    hide PortsOf;
    var revision := store.revisions[store.active];
    forall p | p in PortsOf(store.ActiveConfig()) ensures p in RevisionPorts(store.revisions) {
      assert store.active in store.revisions && revision.config.Some? && p in PortsOf(revision.config.value);
    }
  }

  lemma ReferencedKept(before: Table, reserved: Ports, io: TableIo, verdict: Verdict, after: Table, references: set<int>)
    requires Settled(before, reserved, io, verdict, after, references)
    requires before == Table(map[], map[]) && reserved == map[KEY := PORT] && io.abortWrite == Done && PORT in references
    ensures after.ports == map[KEY := PORT] && Saved(after)
  {
  }

  /** A registry with one agent, which connects. */
  method Connected() returns (agents: Agents)
    ensures fresh(agents) && fresh(agents.hub) && agents.Valid() && agents.clock == 1.0 && agents.manual == [] && agents.rate == map[]
    ensures agents.definitions == map["a" := Agent(true, 30.0)] && agents.reports == map[]
    ensures agents.hub.quota == 128 && agents.hub.ports == map[] && agents.hub.connected == {"a"}
  {
    hide Agents.Sound;
    var hub := new TunnelHub(128, map[], map[]);
    agents := new Agents(hub, map["a" := Agent(true, 30.0)], [], 1.0);
    agents.Connect("a", true);
  }

  /** It reports a container, whose target gets a port. */
  method Started() returns (agents: Agents)
    ensures fresh(agents) && fresh(agents.hub) && agents.Valid() && agents.clock == 100.0 && agents.manual == [] && agents.rate == map["a" := 100.0]
    ensures agents.definitions == map["a" := Agent(true, 30.0)]
    ensures agents.reports == map["a" := NextReport(NO_REPORT, "a", Sample(false), true, true, {}, 128, 100.0)]
    ensures agents.hub.quota == 128 && agents.hub.ports == map[Key("a", "web", 80) := PORT] && agents.hub.connected == {"a"}
  {
    hide Destinations, NextReport, ValidInventory, Sample, Bindable, Chosen, Agents.Sound, OneToOne, LeaseEnd;
    var k := Key("a", "web", 80);
    OneMapping(k);
    SampleRoutes(false);
    agents := Connected();
    assert agents.hub.ports.Keys == {};
    var outcome := agents.Accept("a", Sample(false), true, 100.0, Done);
    var added := agents.Reserve({k}, map[k := PORT], Done);
    assert {k} - {} == {k};
    assert map[] + map[k := PORT] == map[k := PORT];
  }

  /** A run of the registry in which a label target is forwarded to after its own lease has ended: the next report has a
      label that cannot be used. */
  method StretchedLease() returns (agents: Agents, ok: bool)
    ensures ok && "a" in agents.reports && agents.clock == 135.0 && !LabelLive(agents.reports["a"], Agent(true, 30.0), 135.0)
  {
    hide LabelLive, Destinations, NextReport, ValidInventory, Sample, Bindable, Chosen, Agents.Sound, OneToOne;
    var k := Key("a", "web", 80);
    SampleRoutes(true);
    LabelOutlivesItsLease({}, 110.0);
    agents := Started();
    ghost var first := agents.reports["a"];
    assert agents.hub.ports.Keys == {k};
    var outcome := agents.Accept("a", Sample(true), true, 110.0, Done);
    assert agents.reports["a"] == NextReport(first, "a", Sample(true), true, true, {k}, 128, 110.0);
    ok := agents.Passes(k, 135.0);
  }

  lemma OneMapping(k: Key)
    ensures Bindable(map[], {k}, map[k := PORT], 128)
    ensures OneToOne(map[]) && OneToOne(map[k := PORT]) && Chosen(map[k := PORT], {k}) == map[k := PORT]
  {
    OneKey({}, k);
  }
}
