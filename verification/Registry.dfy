/** The registry of agents over the hub: reports, leases, and the targets that the hub lets through. */
module Registry {
  import opened Text
  import opened Config
  import opened PortTable
  import opened Reservations
  import opened Leases

  /** What the last refresh granted: when it ran, and what it read besides the report. */
  datatype Grant = Grant(at: real, agent: Agent, manual: seq<AgentRef>, held: set<Key>)

  /** What leases rest on. */
  datatype LeaseTable = LeaseTable(reports: map<string, Report>, held: set<Key>, destinations: map<string, map<Key, Token>>,
                                   expires: map<string, Expiry>, grants: map<string, Grant>)

  /** A report is turned away within a second of the last one, or its file cannot be written, or it is accepted. */
  datatype Acceptance = Limited | Unwritten | Accepted

  predicate ValidManual(manual: seq<AgentRef>) {
    forall m :: m in manual ==> 1 <= m.port <= 65535
  }

  predicate Timed(definitions: map<string, Agent>) {
    forall agent :: agent in definitions ==> definitions[agent].timeout > 0.0
  }

  predicate Reported(reports: map<string, Report>, rate: map<string, real>, clock: real) {
    && 0.0 < clock
    && (forall agent :: agent in rate ==> rate[agent] <= clock)
    && forall agent :: agent in reports ==>
         0.0 <= reports[agent].validAt <= reports[agent].seenAt <= clock && agent in rate && reports[agent].seenAt <= rate[agent]
  }

  /** The routes of a report come from the last inventory that renewed its label lease. That is the inventory last
      reported, unless that one did not renew the lease. */
  predicate Renewed(r: Report, inv: Inventory) {
    && ValidInventory(inv) && ValidInventory(r.inventory)
    && (forall f :: f in r.routes ==> f in Routes(inv.containers))
    && (r.validAt == r.seenAt ==> inv == r.inventory)
  }

  ghost predicate AllRenewed(reports: map<string, Report>, renewed: map<string, Inventory>) {
    forall agent :: agent in reports ==> agent in renewed && Renewed(reports[agent], renewed[agent])
  }

  /** A target was found by the last refresh. */
  predicate Found(r: Report, g: Grant, agent: string, targets: map<Key, Token>) {
    var found := Destinations(agent, r, g.agent, g.manual, g.held, g.at);
    forall k :: k in targets ==> k in found && targets[k] == found[k]
  }

  /** An agent's targets are mapped ones that the last refresh found in its last report, and their lease is the one that
      refresh granted; an agent without targets needs none. */
  predicate LeaseKept(t: LeaseTable, agent: string, clock: real)
    requires agent in t.destinations
  {
    t.destinations[agent] != map[] ==>
      && agent in t.grants && agent in t.reports && agent in t.expires
      && t.expires[agent].At? && t.grants[agent].at <= clock && ValidManual(t.grants[agent].manual)
      && t.expires[agent].time <= Later(t.grants[agent].at, t.reports[agent].seenAt + t.grants[agent].agent.timeout)
      && t.destinations[agent].Keys <= t.held
      && Found(t.reports[agent], t.grants[agent], agent, t.destinations[agent])
  }

  lemma LeaseLater(t: LeaseTable, agent: string, clock: real, now: real)
    requires agent in t.destinations && LeaseKept(t, agent, clock) && clock <= now
    ensures LeaseKept(t, agent, now)
  {
    hide Found;
  }

  /** An agent's lease rests on its own entries alone, and on its targets being mapped. */
  lemma SameLease(t: LeaseTable, u: LeaseTable, agent: string, clock: real)
    requires agent in t.destinations && LeaseKept(t, agent, clock) && agent in u.destinations && u.destinations[agent] == t.destinations[agent]
    requires t.held <= u.held
    requires agent in t.grants ==> agent in u.grants && u.grants[agent] == t.grants[agent]
    requires agent in t.reports ==> agent in u.reports && u.reports[agent] == t.reports[agent]
    requires agent in t.expires ==> agent in u.expires && u.expires[agent] == t.expires[agent]
    ensures LeaseKept(u, agent, clock)
  {
    hide Found;
  }

  /** Dropping mappings drops their targets with them. */
  lemma DroppedLease(t: LeaseTable, agent: string, clock: real, dropped: set<Key>)
    requires agent in t.destinations && LeaseKept(t, agent, clock)
    ensures LeaseKept(t.(held := t.held - dropped, destinations := Without(t.destinations, dropped)), agent, clock)
  {
    hide Destinations;
  }

  /** A refresh grants the lease of the report it reads. */
  lemma RefreshKeeps(t: LeaseTable, agent: string, a: Agent, manual: seq<AgentRef>, now: real)
    requires agent in t.reports ==> 0.0 <= t.reports[agent].validAt <= t.reports[agent].seenAt
    requires a.timeout > 0.0 && ValidManual(manual)
    ensures var r := if agent in t.reports then t.reports[agent] else NO_REPORT;
            LeaseKept(t.(destinations := t.destinations[agent := Destinations(agent, r, a, manual, t.held, now)],
                         expires := t.expires[agent := At(Later(now, LeaseEnd(r, a, now)))],
                         grants := t.grants[agent := Grant(now, a, manual, t.held)]), agent, now)
  {
    var r := if agent in t.reports then t.reports[agent] else NO_REPORT;
    NoReportNoTargets(agent, a, manual, t.held, now);
    hide Destinations;
    DestinationKeys(agent, r, a, manual, t.held, now);
  }

  /** Every agent but those named. */
  ghost predicate AllKept(t: LeaseTable, clock: real, others: set<string>) {
    forall agent :: agent in t.destinations && agent !in others ==> LeaseKept(t, agent, clock)
  }

  lemma KeptLater(t: LeaseTable, clock: real, now: real)
    requires AllKept(t, clock, {}) && clock <= now
    ensures AllKept(t, now, {})
  {
    hide LeaseKept;
    forall agent | agent in t.destinations ensures LeaseKept(t, agent, now) {
      LeaseLater(t, agent, clock, now);
    }
  }

  lemma KeptGrown(t: LeaseTable, clock: real, held: set<Key>)
    requires AllKept(t, clock, {}) && t.held <= held
    ensures AllKept(t.(held := held), clock, {})
  {
    hide LeaseKept;
    forall agent | agent in t.destinations ensures LeaseKept(t.(held := held), agent, clock) {
      SameLease(t, t.(held := held), agent, clock);
    }
  }

  lemma KeptDropped(t: LeaseTable, clock: real, dropped: set<Key>)
    requires AllKept(t, clock, {})
    ensures AllKept(t.(held := t.held - dropped, destinations := Without(t.destinations, dropped)), clock, {})
  {
    hide LeaseKept;
    forall agent | agent in t.destinations
      ensures LeaseKept(t.(held := t.held - dropped, destinations := Without(t.destinations, dropped)), agent, clock)
    {
      DroppedLease(t, agent, clock, dropped);
    }
  }

  lemma KeptRefreshed(t: LeaseTable, clock: real, agent: string, a: Agent, manual: seq<AgentRef>, now: real)
    requires AllKept(t, clock, {agent}) && clock <= now && a.timeout > 0.0 && ValidManual(manual)
    requires agent in t.reports ==> 0.0 <= t.reports[agent].validAt <= t.reports[agent].seenAt
    ensures var r := if agent in t.reports then t.reports[agent] else NO_REPORT;
            AllKept(t.(destinations := t.destinations[agent := Destinations(agent, r, a, manual, t.held, now)],
                       expires := t.expires[agent := At(Later(now, LeaseEnd(r, a, now)))],
                       grants := t.grants[agent := Grant(now, a, manual, t.held)]), now, {})
  {
    hide LeaseKept, Destinations, LeaseEnd, ValidManual;
    RefreshKeeps(t, agent, a, manual, now);
    var r := if agent in t.reports then t.reports[agent] else NO_REPORT;
    var u := t.(destinations := t.destinations[agent := Destinations(agent, r, a, manual, t.held, now)],
                expires := t.expires[agent := At(Later(now, LeaseEnd(r, a, now)))],
                grants := t.grants[agent := Grant(now, a, manual, t.held)]);
    forall other | other in u.destinations ensures LeaseKept(u, other, now) {
      if other != agent {
        LeaseLater(t, other, clock, now);
        SameLease(t, u, other, now);
      }
    }
  }

  lemma KeptStored(t: LeaseTable, clock: real, agent: string, state: Report)
    requires AllKept(t, clock, {})
    ensures AllKept(t.(reports := t.reports[agent := state]), clock, {agent})
  {
    hide LeaseKept;
    var u := t.(reports := t.reports[agent := state]);
    forall other | other in u.destinations && other != agent ensures LeaseKept(u, other, clock) {
      SameLease(t, u, other, clock);
    }
  }

  lemma KeptRevoked(t: LeaseTable, clock: real, agent: string)
    requires AllKept(t, clock, {})
    ensures AllKept(t.(reports := t.reports - {agent}, destinations := t.destinations[agent := map[]], expires := t.expires[agent := Never]),
                    clock, {})
  {
    hide LeaseKept;
    var u := t.(reports := t.reports - {agent}, destinations := t.destinations[agent := map[]], expires := t.expires[agent := Never]);
    NoTargets(u, agent, clock);
    forall other | other in u.destinations && other != agent ensures LeaseKept(u, other, clock) {
      SameLease(t, u, other, clock);
    }
  }

  lemma NoTargets(t: LeaseTable, agent: string, clock: real)
    requires agent in t.destinations && t.destinations[agent] == map[]
    ensures LeaseKept(t, agent, clock)
  {
  }

  lemma NextRenewed(last: Report, before: Inventory, agent: string, inv: Inventory, manualRouting: bool, online: bool, held: set<Key>,
                    quota: nat, now: real)
    requires Renewed(last, before) && ValidInventory(inv) && last.validAt <= last.seenAt < now
    ensures Renewed(NextReport(last, agent, inv, manualRouting, online, held, quota, now), if Renews(inv, online) then inv else before)
  {
    hide Routes, Faulty, WithinQuota, ValidInventory;
    var routes := Routes(inv.containers);
    forall f | f in Held(agent, routes, held) ensures f in routes {
      HeldRoutes(agent, routes, held, f);
    }
  }

  lemma Targeted(agent: string, r: Report, a: Agent, manual: seq<AgentRef>, held: set<Key>, now: real)
    ensures var found := Destinations(agent, r, a, manual, held, now);
            forall k :: k in found <==>
              && a.enabled && k.agent == agent && k in held
              && (|| (0.0 <= now - r.validAt < a.timeout && exists f :: f in r.routes && f.container == k.container && f.port == k.port)
                  || (&& r.manualRouting && r.inventory.connected && !r.inventory.truncated && 0.0 <= now - r.seenAt < a.timeout
                      && AgentRef(agent, k.container, k.port) in manual
                      && exists c :: c in r.inventory.containers && c.name == k.container && c.running && !c.gateway && c.endpoints != []
                                     && (c.shared || c.endpoints[0].kind == Namespace)))
  {
    hide Destinations;
    forall k { TargetExactly(agent, r, a, manual, held, now, k); }
  }

  class Agents {
    const hub: TunnelHub
    var definitions: map<string, Agent>
    var reports: map<string, Report>
    var rate: map<string, real>
    var manual: seq<AgentRef>
    var clock: real
    ghost var grants: map<string, Grant>
    ghost var renewed: map<string, Inventory>

    /** Every agent but those named has the lease its last refresh granted. */
    ghost predicate Sound(others: set<string>)
      reads this, hub`ports, hub`listeners, hub`destinations, hub`expires
    {
      && hub.Valid() && Reported(reports, rate, clock) && AllRenewed(reports, renewed) && ValidManual(manual) && Timed(definitions)
      && AllKept(Table(), clock, others)
    }

    ghost predicate Valid()
      reads this, hub`ports, hub`listeners, hub`destinations, hub`expires
    {
      Sound({})
    }

    ghost function Table(): LeaseTable
      reads `reports, `grants, hub`ports, hub`destinations, hub`expires
    {
      LeaseTable(reports, hub.ports.Keys, hub.destinations, hub.expires, grants)
    }

    constructor (hub: TunnelHub, definitions: map<string, Agent>, manual: seq<AgentRef>, clock: real)
      requires hub.Valid() && hub.destinations == map[] && clock > 0.0 && ValidManual(manual) && Timed(definitions)
      ensures Valid() && this.hub == hub && this.definitions == definitions && this.manual == manual && this.clock == clock
      ensures reports == map[] && rate == map[]
    {
      this.hub, this.definitions, this.manual, this.clock := hub, definitions, manual, clock;
      reports, rate := map[], map[];
      grants, renewed := map[], map[];
    }

    function Last(agent: string): Report
      reads this
    {
      if agent in reports then reports[agent] else NO_REPORT
    }

    /** A new agent, or a change that leaves it enabled with its token. */
    method Define(agent: string, definition: Agent)
      requires Valid() && definition.timeout > 0.0 && definition.enabled
      modifies `definitions
      ensures Valid() && definitions == old(definitions)[agent := definition]
    {
      definitions := definitions[agent := definition];
    }

    /** The agent's control connection comes up, which takes a current token, or goes down. */
    method Connect(agent: string, up: bool)
      requires Valid() && (up ==> agent in definitions && definitions[agent].enabled)
      modifies hub`connected
      ensures Valid() && hub.connected == if up then old(hub.connected) + {agent} else old(hub.connected) - {agent}
    {
      hub.connected := if up then hub.connected + {agent} else hub.connected - {agent};
    }

    /** A reservation in the hub: leases are kept, since no mapping goes. */
    method Reserve(keys: set<Key>, binds: Ports, write: Io) returns (added: Option<Ports>)
      requires Valid() && OneToOne(binds) && binds.Values !! hub.ports.Values
      modifies hub`ports, hub`listeners, hub`file
      ensures Valid()
      ensures added.Some? <==> Bindable(old(hub.ports), keys, binds, hub.quota) && (keys - old(hub.ports.Keys) != {} ==> !write.Raises())
      ensures hub.ports == if added.Some? then old(hub.ports) + added.value else old(hub.ports)
      ensures added.Some? ==> added.value == Chosen(binds, keys - old(hub.ports.Keys))
    {
      hide AllKept, OneToOne, Bindable, Chosen, Recorded, Reported, AllRenewed, ValidManual, Timed;
      ghost var before := Table();
      added := hub.Begin(keys, binds, write);
      KeptGrown(before, clock, hub.ports.Keys);
    }

    /** Its rollback: a mapping goes together with its targets, and only then. */
    method Release(added: Ports, keep: Option<set<int>>, write: Io)
      requires Valid() && forall k :: k in added ==> k in hub.ports && hub.ports[k] == added[k]
      modifies hub`ports, hub`listeners, hub`file, hub`destinations
      ensures Valid()
      ensures hub.View() == Aborted(old(hub.View()), added, keep, write)
      ensures hub.destinations == if Orphans(added, keep) != {} && write.Raises() then old(hub.destinations)
                                  else Without(old(hub.destinations), Orphans(added, keep))
    {
      hide AllKept, OneToOne, Reported, AllRenewed, ValidManual, Timed, Without;
      ghost var before, dropped := Table(), Orphans(added, keep);
      WithoutNothing(hub.destinations);
      KeptDropped(before, clock, dropped);
      hub.Abort(added, keep, write);
      if !(dropped != {} && write.Raises()) {
        assert Table() == before.(held := before.held - dropped, destinations := Without(before.destinations, dropped));
      }
    }

    /** `refresh_targets` */
    method Refresh(agent: string, now: real)
      requires Sound({agent}) && agent in definitions && clock <= now
      modifies `clock, `grants, hub`destinations, hub`expires
      ensures Valid() && clock == now
      ensures hub.destinations == old(hub.destinations)[agent := Destinations(agent, Last(agent), definitions[agent], manual, hub.ports.Keys, now)]
      ensures hub.expires == old(hub.expires)[agent := At(Later(now, LeaseEnd(Last(agent), definitions[agent], now)))]
      ensures grants == old(grants)[agent := Grant(now, definitions[agent], manual, hub.ports.Keys)]
    {
      hide Destinations, LeaseEnd, AllKept, AllRenewed, ValidManual, OneToOne;
      var a, r := definitions[agent], Last(agent);
      var found := FindDestinations(agent, now);
      var end := LeaseEnd(r, a, now);
      ghost var before := Table();
      KeptRefreshed(before, clock, agent, a, manual, now);
      hub.Targets(agent, found, At(now + if end - now > 0.0 then end - now else 0.0));
      clock := now;
      grants := grants[agent := Grant(now, a, manual, hub.ports.Keys)];
      assert hub.Valid();
      assert Table() == before.(destinations := before.destinations[agent := Destinations(agent, r, a, manual, before.held, now)],
                                expires := before.expires[agent := At(Later(now, LeaseEnd(r, a, now)))],
                                grants := before.grants[agent := Grant(now, a, manual, before.held)]);
    }

    /** The two loops of `refresh_targets`. */
    method FindDestinations(agent: string, now: real) returns (found: map<Key, Token>)
      requires agent in definitions
      ensures found == Destinations(agent, Last(agent), definitions[agent], manual, hub.ports.Keys, now)
      ensures var a, r := definitions[agent], Last(agent);
              forall k :: k in found <==>
                && a.enabled && k.agent == agent && k in hub.ports
                && (|| (0.0 <= now - r.validAt < a.timeout && exists f :: f in r.routes && f.container == k.container && f.port == k.port)
                    || (&& r.manualRouting && r.inventory.connected && !r.inventory.truncated && 0.0 <= now - r.seenAt < a.timeout
                        && AgentRef(agent, k.container, k.port) in manual
                        && exists c :: c in r.inventory.containers && c.name == k.container && c.running && !c.gateway && c.endpoints != []
                                       && (c.shared || c.endpoints[0].kind == Namespace)))
    {
      Targeted(agent, Last(agent), definitions[agent], manual, hub.ports.Keys, now);
      var a, r, held := definitions[agent], Last(agent), hub.ports.Keys;
      found := map[];
      if LabelLive(r, a, now) {
        for i := 0 to |r.routes|
          invariant found == Labelled(agent, r.routes[..i], held)
        {
          assert r.routes[..i + 1][..i] == r.routes[..i];
          var k := KeyOf(agent, r.routes[i]);
          if k in held {
            found := found[k := r.routes[i].token];
          }
        }
        assert r.routes[..|r.routes|] == r.routes;
      }
      if ManualLive(r, a, now) {
        ghost var start := found;
        var rows := Rows(r.inventory.containers);
        for i := 0 to |manual|
          invariant found == Selected(agent, manual[..i], rows, held, start)
        {
          assert manual[..i + 1][..i] == manual[..i];
          var k := Key(agent, manual[i].container, manual[i].port);
          if manual[i].id == agent && manual[i].container in rows && k in held {
            found := found[k := Named(rows[manual[i].container].id, manual[i].port)];
          }
        }
        assert manual[..|manual|] == manual;
      }
      if !a.enabled {
        found := map[];
      }
    }

    /** `report`: an accepted inventory renews the manual lease; the label lease is renewed only by an inventory
        that is complete, whose labels are all usable, while the tunnel is up. Over quota, the label lease is
        renewed for the targets that already have a port. When the report's file cannot be written the old report
        stays, but the attempt counts against the rate. */
    method Accept(agent: string, inv: Inventory, manualRouting: bool, now: real, write: Io) returns (outcome: Acceptance)
      requires Valid() && agent in definitions && definitions[agent].enabled && clock <= now && ValidInventory(inv)
      modifies `reports, `rate, `clock, `grants, `renewed, hub`destinations, hub`expires
      ensures Valid() && clock == now
      ensures outcome == Limited <==> agent in old(rate) && 0.0 <= now - old(rate)[agent] < 1.0
      ensures outcome == Accepted <==> outcome != Limited && write == Done
      ensures rate == if outcome == Limited then old(rate) else old(rate)[agent := now]
      ensures outcome != Accepted ==> reports == old(reports) && hub.destinations == old(hub.destinations) && hub.expires == old(hub.expires)
      ensures outcome == Accepted ==>
                reports == old(reports)[agent := NextReport(old(Last(agent)), agent, inv, manualRouting, agent in hub.connected, hub.ports.Keys,
                                                            hub.quota, now)]
      ensures outcome == Accepted ==>
                && hub.destinations == old(hub.destinations)[agent := Destinations(agent, reports[agent], definitions[agent], manual, hub.ports.Keys, now)]
                && hub.expires == old(hub.expires)[agent := At(Later(now, LeaseEnd(reports[agent], definitions[agent], now)))]
    {
      hide Destinations, AllKept, AllRenewed, NextReport, LeaseEnd, Renewed, OneToOne, ValidInventory, ValidManual, Reported, Timed;
      var limited := agent in rate && 0.0 <= now - rate[agent] < 1.0;
      if !limited {
        Rated(reports, rate, clock, agent, now);
      }
      Advance(now);
      if limited {
        return Limited;
      }
      rate := rate[agent := now];
      var state := Receive(agent, inv, manualRouting, now);
      if write.Raises() {
        return Unwritten;
      }
      Record(agent, state, inv, manualRouting);
      outcome := Accepted;
    }

    /** Adopts a report and refreshes the agent's targets from it. */
    method Record(agent: string, state: Report, inv: Inventory, manualRouting: bool)
      requires Valid() && agent in definitions && ValidInventory(inv) && agent in rate && rate[agent] == clock && Last(agent).seenAt < clock
      requires state == NextReport(Last(agent), agent, inv, manualRouting, agent in hub.connected, hub.ports.Keys, hub.quota, clock)
      modifies `reports, `clock, `grants, `renewed, hub`destinations, hub`expires
      ensures Valid() && clock == old(clock) && reports == old(reports)[agent := state]
      ensures hub.destinations == old(hub.destinations)[agent := Destinations(agent, state, definitions[agent], manual, hub.ports.Keys, clock)]
      ensures hub.expires == old(hub.expires)[agent := At(Later(clock, LeaseEnd(state, definitions[agent], clock)))]
    {
      hide Destinations, AllKept, AllRenewed, NextReport, LeaseEnd, Renewed, OneToOne, ValidInventory, ValidManual, Reported, Timed;
      Store(agent, state, inv, manualRouting);
      Refresh(agent, clock);
    }

    /** Time passes. */
    method Advance(now: real)
      requires Valid() && clock <= now
      modifies `clock
      ensures Valid() && clock == now
    {
      hide AllKept, AllRenewed, ValidManual;
      KeptLater(Table(), clock, now);
      clock := now;
    }

    /** The new state of a report, branch by branch. */
    method Receive(agent: string, inv: Inventory, manualRouting: bool, now: real) returns (state: Report)
      ensures state == NextReport(Last(agent), agent, inv, manualRouting, agent in hub.connected, hub.ports.Keys, hub.quota, now)
    {
      hide Routes, Faulty, WithinQuota;
      state := Last(agent).(seenAt := now, inventory := inv, manualRouting := manualRouting);
      var routes, errors := AgentRoutes(inv.containers);
      if !inv.connected || inv.truncated || agent !in hub.connected {
        errors := true;
      }
      if !errors {
        var ok := hub.CheckCapacity(KeysOf(agent, routes));
        if ok {
          state := state.(validAt := now, routes := routes);
        } else {
          state := state.(validAt := now, routes := Held(agent, routes, hub.ports.Keys));
        }
      }
    }

    /** Recording a newer report keeps every lease but the agent's own, which is about to be refreshed. */
    method Store(agent: string, state: Report, inv: Inventory, manualRouting: bool)
      requires Sound({}) && ValidInventory(inv) && agent in rate && rate[agent] == clock && Last(agent).seenAt < clock
      requires state == NextReport(Last(agent), agent, inv, manualRouting, agent in hub.connected, hub.ports.Keys, hub.quota, clock)
      modifies `reports, `renewed
      ensures Sound({agent}) && reports == old(reports)[agent := state]
    {
      hide AllKept, NextReport, Renewed, OneToOne, ValidInventory, ValidManual, Reported, AllRenewed, Renews, Timed;
      KeptStored(Table(), clock, agent, state);
      ReportTimes(reports, rate, clock);
      ghost var last := LastRenewed(reports, renewed, agent);
      NextReportTimes(Last(agent), agent, inv, manualRouting, agent in hub.connected, hub.ports.Keys, hub.quota, clock);
      NextRenewed(Last(agent), last, agent, inv, manualRouting, agent in hub.connected, hub.ports.Keys, hub.quota, clock);
      ghost var next := if Renews(inv, agent in hub.connected) then inv else last;
      RecordedWith(reports, rate, renewed, clock, agent, state, next);
      renewed := renewed[agent := next];
      reports := reports[agent := state];
    }

    /** The end of `mutate` for a rotation, deletion or disabling: the targets go, and so does the report. Their
        expiry becomes infinite, but there is nothing left to forward to. */
    method Revoke(agent: string, definition: Option<Agent>)
      requires Valid() && (definition.Some? ==> definition.value.timeout > 0.0)
      modifies `definitions, `reports, `rate, hub`destinations, hub`expires, hub`connected
      ensures Valid()
      ensures definitions == if definition.Some? then old(definitions)[agent := definition.value] else old(definitions) - {agent}
      ensures hub.destinations == old(hub.destinations)[agent := map[]] && agent !in reports && agent !in hub.connected
    {
      hide AllKept, OneToOne, Reported, AllRenewed, ValidManual, Timed;
      ghost var before := Table();
      Redefined(definitions, agent, definition);
      KeptRevoked(before, clock, agent);
      RecordedWithout(reports, rate, renewed, clock, agent);
      definitions := if definition.Some? then definitions[agent := definition.value] else definitions - {agent};
      hub.connected := hub.connected - {agent};
      hub.Targets(agent, map[], Never);
      reports, rate := reports - {agent}, rate - {agent};
      assert hub.Valid();
      assert Table() == before.(reports := before.reports - {agent}, destinations := before.destinations[agent := map[]],
                                expires := before.expires[agent := Never]);
    }

    /** What `forward` asks of the tables: the key is among its agent's targets, and they have not expired. That holds only
        before the agent's last report plus the timeout that the last refresh used, and only for a target that has a port. */
    method Leased(k: Key, now: real) returns (ok: bool)
      requires Valid() && clock <= now
      modifies `clock
      ensures Valid() && clock == now
      ensures ok <==> && k.agent in hub.destinations && k in hub.destinations[k.agent]
                      && k.agent in hub.expires && (hub.expires[k.agent].At? ==> now < hub.expires[k.agent].time)
      ensures ok ==> k.agent in reports && k.agent in grants && k in hub.ports
                     && now < reports[k.agent].seenAt + grants[k.agent].agent.timeout
    {
      Advance(now);
      ok := k.agent in hub.destinations && k in hub.destinations[k.agent]
      && k.agent in hub.expires && (hub.expires[k.agent].Never? || now < hub.expires[k.agent].time);
      if ok {
        assert LeaseKept(Table(), k.agent, clock);
        hide LeaseKept;
      }
    }

    /** The same for an agent whose tunnel is up. */
    method Passes(k: Key, now: real) returns (ok: bool)
      requires Valid() && clock <= now
      modifies `clock
      ensures Valid() && clock == now
      ensures ok <==> && k.agent in hub.connected && k.agent in hub.destinations && k in hub.destinations[k.agent]
                      && k.agent in hub.expires && (hub.expires[k.agent].At? ==> now < hub.expires[k.agent].time)
      ensures ok ==> k.agent in reports && k.agent in grants && k in hub.ports
                     && now < reports[k.agent].seenAt + grants[k.agent].agent.timeout
    {
      hide Sound;
      ok := Leased(k, now);
      ok := ok && k.agent in hub.connected;
    }
  }

  /** Both ends resolve alike in every state of the registry. The agent's tables come from the inventory it reported last.
      If that report renewed the label lease, whatever token the hub has for a key leads to the first endpoint of the
      container the key names; if it did not, a token leads there or nowhere, never to another container. */
  lemma Resolves(registry: Agents, view: AgentView, k: Key)
    requires registry.Valid() && k.agent in registry.hub.destinations && k in registry.hub.destinations[k.agent]
    requires k.agent in registry.reports
    requires var inv := registry.reports[k.agent].inventory;
             && view.targets == Targets(Routes(inv.containers))
             && view.containers == if inv.connected && !inv.truncated then Addresses(inv.containers) else map[]
    ensures var r := registry.reports[k.agent]; var to := view.Destination(registry.hub.destinations[k.agent][k]);
            && (r.validAt == r.seenAt ==>
                  exists i :: 0 <= i < |r.inventory.containers| && KeyNames(r.inventory, k, i)
                              && to == Some((r.inventory.containers[i].endpoints[0].address, k.port)))
            && (to.Some? ==>
                  exists i :: 0 <= i < |r.inventory.containers| && r.inventory.containers[i].endpoints != []
                              && r.inventory.containers[i].id == registry.hub.destinations[k.agent][k].container
                              && to.value == (r.inventory.containers[i].endpoints[0].address, k.port))
  {
    hide Destinations, Targets, Routes, Addresses, Resolved, KeyNames, ValidInventory, Reported;
    var r := registry.reports[k.agent];
    assert LeaseKept(registry.Table(), k.agent, registry.clock);
    var g := registry.grants[k.agent];
    ResolveStale(k.agent, r, g.agent, g.manual, g.held, g.at, k, registry.renewed[k.agent]);
    if r.validAt == r.seenAt {
      var i := ResolveAlike(k.agent, r, g.agent, g.manual, g.held, g.at, k);
      NamedBelow(r.inventory, k, i);
    }
    DestinationOf(view, registry.hub.destinations[k.agent][k]);
  }

  lemma NamedBelow(inv: Inventory, k: Key, i: nat)
    requires KeyNames(inv, k, i)
    ensures i < |inv.containers|
  {
  }

  lemma DestinationOf(view: AgentView, token: Token)
    ensures view.Destination(token) == Resolved(view.targets, view.containers, token)
  {
  }

  /** A report that the rate admits is later than the last one. */
  lemma Rated(reports: map<string, Report>, rate: map<string, real>, clock: real, agent: string, now: real)
    requires Reported(reports, rate, clock) && clock <= now && !(agent in rate && 0.0 <= now - rate[agent] < 1.0)
    ensures Reported(reports, rate[agent := now], now) && Reported(reports, rate, now)
    ensures agent in reports ==> reports[agent].seenAt < now
  {
  }

  lemma ReportTimes(reports: map<string, Report>, rate: map<string, real>, clock: real)
    requires Reported(reports, rate, clock)
    ensures clock > 0.0 && forall agent :: agent in reports ==> 0.0 <= reports[agent].validAt <= reports[agent].seenAt <= clock
  {
  }

  ghost function LastRenewed(reports: map<string, Report>, renewed: map<string, Inventory>, agent: string): (inv: Inventory)
    requires AllRenewed(reports, renewed)
    ensures Renewed(if agent in reports then reports[agent] else NO_REPORT, inv)
  {
    if agent in reports then renewed[agent] else NO_REPORT.inventory
  }

  lemma RecordedWith(reports: map<string, Report>, rate: map<string, real>, renewed: map<string, Inventory>, clock: real,
                     agent: string, state: Report, inv: Inventory)
    requires Reported(reports, rate, clock) && AllRenewed(reports, renewed) && Renewed(state, inv)
    requires agent in rate && rate[agent] == clock && 0.0 <= state.validAt <= state.seenAt == clock
    ensures Reported(reports[agent := state], rate, clock) && AllRenewed(reports[agent := state], renewed[agent := inv])
  {
    hide Renewed;
  }

  lemma Redefined(definitions: map<string, Agent>, agent: string, definition: Option<Agent>)
    requires Timed(definitions) && (definition.Some? ==> definition.value.timeout > 0.0)
    ensures Timed(if definition.Some? then definitions[agent := definition.value] else definitions - {agent})
  {
  }

  lemma RecordedWithout(reports: map<string, Report>, rate: map<string, real>, renewed: map<string, Inventory>, clock: real, agent: string)
    requires Reported(reports, rate, clock) && AllRenewed(reports, renewed)
    ensures Reported(reports - {agent}, rate - {agent}, clock) && AllRenewed(reports - {agent}, renewed)
  {
    hide Renewed;
  }
}
