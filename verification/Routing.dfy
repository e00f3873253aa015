/** The entries that agents contribute to reconciliation, and what becomes of their placeholders. */
module Routing {
  import opened Text
  import opened Config
  import opened Labels
  import opened Reservations
  import opened Placeholders
  import opened Leases
  import Canonical

  /** The agents in the order of their definitions, with their last reports. */
  datatype Reporter = Reporter(id: string, agent: Agent, report: Report)

  /** A route as an entry: on its loopback port if it has one, on a placeholder otherwise. */
  function EntryOf(agent: string, f: Forwarded, ports: map<Key, int>): Entry {
    var k := KeyOf(agent, f);
    var target := if k in ports then Target(Plain(LOOPBACK), ports[k], f.weight, f.backup, None)
                  else Target(Pending(k), f.port, f.weight, f.backup, None);
    Entry(f.spec, target, "agent_" + agent)
  }

  predicate Live(a: Reporter, now: real) {
    a.agent.enabled && LabelLive(a.report, a.agent, now)
  }

  function AgentEntries(agent: string, routes: seq<Forwarded>, ports: map<Key, int>): seq<Entry> {
    if routes == [] then []
    else AgentEntries(agent, routes[..|routes| - 1], ports) + [EntryOf(agent, routes[|routes| - 1], ports)]
  }

  function Entries(agents: seq<Reporter>, ports: map<Key, int>, now: real): seq<Entry> {
    if agents == [] then []
    else
      var last := agents[|agents| - 1];
      Entries(agents[..|agents| - 1], ports, now) + if Live(last, now) then AgentEntries(last.id, last.report.routes, ports) else []
  }

  /** The keys `materialize` recognizes: those of the live routes. */
  function Known(agents: seq<Reporter>, now: real): set<Key> {
    set i, j | 0 <= i < |agents| && Live(agents[i], now) && 0 <= j < |agents[i].report.routes| :: KeyOf(agents[i].id, agents[i].report.routes[j])
  }

  /** Agents contribute in turn. */
  lemma {:induction false} EntriesJoin(a: seq<Reporter>, b: seq<Reporter>, ports: map<Key, int>, now: real)
    ensures Entries(a + b, ports, now) == Entries(a, ports, now) + Entries(b, ports, now)
    decreases |b|
  {
    if b == [] {
      assert a + b == a;
    } else {
      var last := |b| - 1;
      assert (a + b)[..|a + b| - 1] == a + b[..last] && (a + b)[|a + b| - 1] == b[last];
      EntriesJoin(a, b[..last], ports, now);
    }
  }

  /** An enabled agent whose label lease runs contributes its routes in turn, each on its loopback port if its key has one
      and on the key's placeholder otherwise; any other agent contributes nothing. */
  lemma AgentExactly(a: Reporter, ports: map<Key, int>, now: real)
    ensures var es, routes := Entries([a], ports, now), a.report.routes;
            if a.agent.enabled && 0.0 <= now - a.report.validAt < a.agent.timeout
            then |es| == |routes| && forall j :: 0 <= j < |routes| ==>
                                       var f := routes[j]; var k := Key(a.id, f.container, f.port);
                                       && es[j].spec == f.spec && es[j].source == "agent_" + a.id
                                       && es[j].target.weight == f.weight && es[j].target.backup == f.backup && es[j].target.agent == None
                                       && (k in ports ==> es[j].target.address == Plain("127.0.0.1") && es[j].target.port == ports[k])
                                       && (k !in ports ==> es[j].target.address == Pending(k) && es[j].target.port == f.port)
            else es == []
  {
    Alone(a, ports, now);
    EntriesPlaced(a.id, a.report.routes, ports);
    hide Entries, AgentEntries;
  }

  lemma Alone(a: Reporter, ports: map<Key, int>, now: real)
    ensures Entries([a], ports, now) == if Live(a, now) then AgentEntries(a.id, a.report.routes, ports) else []
  {
    assert [a][..0] == [];
    assert Entries([], ports, now) == [];
    hide AgentEntries, Live;
  }

  lemma {:induction false} EntriesPlaced(agent: string, routes: seq<Forwarded>, ports: map<Key, int>)
    ensures |AgentEntries(agent, routes, ports)| == |routes|
    ensures forall j :: 0 <= j < |routes| ==> AgentEntries(agent, routes, ports)[j] == EntryOf(agent, routes[j], ports)
  {
    if routes != [] {
      EntriesPlaced(agent, routes[..|routes| - 1], ports);
    }
  }

  /** What `routing` emits. */
  lemma EntriesExactly(agents: seq<Reporter>, ports: map<Key, int>, now: real, e: Entry)
    ensures e in Entries(agents, ports, now) <==>
            exists i, j :: 0 <= i < |agents| && agents[i].agent.enabled && 0.0 <= now - agents[i].report.validAt < agents[i].agent.timeout
                           && 0 <= j < |agents[i].report.routes|
                           && var f := agents[i].report.routes[j]; var k := Key(agents[i].id, f.container, f.port);
                              && e.spec == f.spec && e.source == "agent_" + agents[i].id
                              && e.target.weight == f.weight && e.target.backup == f.backup && e.target.agent == None
                              && e.target.address == (if k in ports then Plain("127.0.0.1") else Pending(k))
                              && e.target.port == (if k in ports then ports[k] else f.port)
  {
    EmittedByAgents(agents, ports, now, e);
    hide Entries;
  }

  lemma {:induction false} EmittedByAgents(agents: seq<Reporter>, ports: map<Key, int>, now: real, e: Entry)
    ensures e in Entries(agents, ports, now) <==>
            exists i, j :: 0 <= i < |agents| && agents[i].agent.enabled && 0.0 <= now - agents[i].report.validAt < agents[i].agent.timeout
                           && 0 <= j < |agents[i].report.routes| && Emitted(e, agents[i].id, agents[i].report.routes[j], ports)
  {
    if agents != [] {
      var last := |agents| - 1;
      EmittedByAgents(agents[..last], ports, now, e);
      EntriesPlaced(agents[last].id, agents[last].report.routes, ports);
      EmittedExactly(e, agents[last].id, agents[last].report.routes, ports);
      if i, j :| 0 <= i < |agents| && agents[i].agent.enabled && 0.0 <= now - agents[i].report.validAt < agents[i].agent.timeout
                 && 0 <= j < |agents[i].report.routes| && Emitted(e, agents[i].id, agents[i].report.routes[j], ports)
      {
        assert i < last ==> agents[..last][i] == agents[i];
      }
    }
  }

  /** The entry of a route: its spec, weight and backup, on behalf of its agent. */
  predicate Emitted(e: Entry, agent: string, f: Forwarded, ports: map<Key, int>) {
    var k := Key(agent, f.container, f.port);
    && e.spec == f.spec && e.source == "agent_" + agent
    && e.target == Target(if k in ports then Plain("127.0.0.1") else Pending(k), if k in ports then ports[k] else f.port, f.weight, f.backup, None)
  }

  lemma EmittedExactly(e: Entry, agent: string, routes: seq<Forwarded>, ports: map<Key, int>)
    ensures e in AgentEntries(agent, routes, ports) <==> exists j :: 0 <= j < |routes| && Emitted(e, agent, routes[j], ports)
  {
    EntriesPlaced(agent, routes, ports);
    var all := AgentEntries(agent, routes, ports);
    forall j | 0 <= j < |routes| ensures e == all[j] <==> Emitted(e, agent, routes[j], ports) {}
  }

  /** Which keys `materialize` knows. */
  lemma KnownExactly(agents: seq<Reporter>, now: real, k: Key)
    ensures k in Known(agents, now) <==>
            exists i, j :: 0 <= i < |agents| && agents[i].agent.enabled && 0.0 <= now - agents[i].report.validAt < agents[i].agent.timeout
                           && 0 <= j < |agents[i].report.routes|
                           && k == Key(agents[i].id, agents[i].report.routes[j].container, agents[i].report.routes[j].port)
  {
  }

  /** The loops of `routing` over agents and routes. */
  method Collect(agents: seq<Reporter>, ports: map<Key, int>, now: real) returns (entries: seq<Entry>)
    ensures entries == Entries(agents, ports, now)
    ensures forall e :: e in entries <==>
              exists i, j :: 0 <= i < |agents| && agents[i].agent.enabled && 0.0 <= now - agents[i].report.validAt < agents[i].agent.timeout
                             && 0 <= j < |agents[i].report.routes| && Emitted(e, agents[i].id, agents[i].report.routes[j], ports)
  {
    forall e { EmittedByAgents(agents, ports, now, e); }
    entries := [];
    for i := 0 to |agents|
      invariant entries == Entries(agents[..i], ports, now)
    {
      assert agents[..i + 1][..i] == agents[..i];
      var a := agents[i];
      if Live(a, now) {
        ghost var before := entries;
        for j := 0 to |a.report.routes|
          invariant entries == before + AgentEntries(a.id, a.report.routes[..j], ports)
        {
          assert a.report.routes[..j + 1][..j] == a.report.routes[..j];
          entries := entries + [EntryOf(a.id, a.report.routes[j], ports)];
        }
        assert a.report.routes[..|a.report.routes|] == a.report.routes;
      }
    }
    assert agents[..|agents|] == agents;
  }

  lemma {:induction false} AgentEntryOrigin(agent: string, routes: seq<Forwarded>, ports: map<Key, int>, e: Entry) returns (j: nat)
    requires e in AgentEntries(agent, routes, ports)
    ensures j < |routes| && e == EntryOf(agent, routes[j], ports)
  {
    var last := |routes| - 1;
    if e in AgentEntries(agent, routes[..last], ports) {
      j := AgentEntryOrigin(agent, routes[..last], ports, e);
    } else {
      j := last;
    }
  }

  lemma {:induction false} EntryOrigin(agents: seq<Reporter>, ports: map<Key, int>, now: real, e: Entry) returns (i: nat, j: nat)
    requires e in Entries(agents, ports, now)
    ensures i < |agents| && Live(agents[i], now) && j < |agents[i].report.routes| && e == EntryOf(agents[i].id, agents[i].report.routes[j], ports)
  {
    var last := |agents| - 1;
    if e in Entries(agents[..last], ports, now) {
      i, j := EntryOrigin(agents[..last], ports, now, e);
    } else {
      i := last;
      j := AgentEntryOrigin(agents[last].id, agents[last].report.routes, ports, e);
    }
  }

  /** A placeholder that `routing` emits is one that `materialize` recognizes at the same time, so it refuses a
      review only after the inventory changed. */
  lemma PlaceholdersKnown(agents: seq<Reporter>, ports: map<Key, int>, now: real, e: Entry)
    requires e in Entries(agents, ports, now) && e.target.address.Pending?
    ensures e.target.address.key in Known(agents, now) && e.target.address.key !in ports
  {
    var i, j := EntryOrigin(agents, ports, now, e);
  }

  lemma {:induction false} AgentEntriesResolve(agent: string, routes: seq<Forwarded>, ports: map<Key, int>, grown: map<Key, int>)
    requires forall k :: k in ports ==> k in grown && grown[k] == ports[k]
    ensures ResolveEntries(AgentEntries(agent, routes, ports), grown) == AgentEntries(agent, routes, grown)
  {
    if routes != [] {
      var rest := routes[..|routes| - 1];
      AgentEntriesResolve(agent, rest, ports, grown);
      JoinResolve(AgentEntries(agent, rest, ports), [EntryOf(agent, routes[|routes| - 1], ports)], grown);
    }
  }

  lemma JoinResolve(a: seq<Entry>, b: seq<Entry>, ports: map<Key, int>)
    ensures ResolveEntries(a + b, ports) == ResolveEntries(a, ports) + ResolveEntries(b, ports)
  {
  }

  /** Substituting the reserved ports into the entries of a review gives exactly the entries that `routing` returns
      once the reservation has been made. */
  lemma {:induction false} RoutingAfterReservation(agents: seq<Reporter>, ports: map<Key, int>, grown: map<Key, int>, now: real)
    requires forall k :: k in ports ==> k in grown && grown[k] == ports[k]
    ensures ResolveEntries(Entries(agents, ports, now), grown) == Entries(agents, grown, now)
  {
    if agents != [] {
      var last := agents[|agents| - 1];
      var rest := agents[..|agents| - 1];
      RoutingAfterReservation(rest, ports, grown, now);
      var tail := if Live(last, now) then AgentEntries(last.id, last.report.routes, ports) else [];
      JoinResolve(Entries(rest, ports, now), tail, grown);
      AgentEntriesResolve(last.id, last.report.routes, ports, grown);
    }
  }

  /** What `scan` reconciles: while the local inventory is missing, only `local` is frozen and only agents
      contribute. */
  function Scanned(local: Option<seq<Entry>>, remote: seq<Entry>): (seq<Entry>, set<string>) {
    if local.None? then (remote, {LOCAL}) else (local.value + remote, {})
  }

  /** So no entry ever speaks for a frozen source, which is what canonical reconciliation asks for. */
  lemma ScanThawed(local: Option<seq<Entry>>, agents: seq<Reporter>, ports: map<Key, int>, now: real)
    ensures var (es, frozen) := Scanned(local, Entries(agents, ports, now)); Canonical.Thawed(es, frozen)
  {
    var (es, frozen) := Scanned(local, Entries(agents, ports, now));
    forall e | e in es && local.None? ensures e.source != LOCAL {
      var i, j := EntryOrigin(agents, ports, now, e);
      assert e.source[0] == 'a' && LOCAL[0] == 'l';
    }
  }
}
